/** sleep, wakeup, kkill and the scheduler's hand-off of p->lock (kernel/proc.c), one step for each lock
    operation and context switch, for any number of processors.  `ready` holds the channels whose
    sleepers have something to do: the condition they loop on is no longer what sent them to sleep. */
module SleepWakeup {
  type Lock = nat

  /** A channel, with the condition lock its sleepers use. */
  datatype Chan = NoChan | Chan(lock: Lock, id: nat)

  predicate On(c: Chan, l: Lock) { c.Chan? && c.lock == l }

  datatype RunState = Sleeping | Runnable | Running | Off

  /** Who holds a process's p->lock: nobody, a process, or the scheduler of some processor. */
  datatype Owner = Free | By(p: nat) | Sched

  /** What a process holds another's p->lock for. */
  datatype Why = Wake(c: Chan) | Kill | Look

  /** Where a process is.  `Out` is kernel code outside the functions modelled here. */
  datatype Pc =
    | Out
    | SleepCall(c: Chan)            // in sleep, before acquire(&p->lock)
    | SleepLocked(c: Chan)          // before release(lk)
    | SleepSet(c: Chan)             // before chan and state are set
    | Switching(c: Chan)            // SLEEPING, p->lock held, on the way into the scheduler
    | OffCpu(c: Chan)
    | Resumed(c: Chan)              // back from sched with p->lock held
    | Tidied(c: Chan)               // chan cleared, before release(&p->lock)
    | Reacquire(c: Chan)            // before acquire(lk)
    | Waking(c: Chan, i: nat)       // in wakeup(c), before process i
    | At(i: nat, why: Why)          // in wakeup, kkill or kwait, holding process i's lock
    | Exiting                       // in kexit, own p->lock held
    | Dead
    | Newborn                       // made RUNNABLE by fork, never run
    | FirstRun                      // in forkret, p->lock still held from the scheduler

  /** A process.  `owed` are the channels it made ready and has not woken since; `quiet` are those it has
      woken while holding their lock: nobody sleeps on them. */
  datatype Thread = Thread(pc: Pc, run: RunState, chan: Chan, plock: Owner, owed: set<Chan>, quiet: set<Chan>)

  datatype State = State(th: seq<Thread>, lock: map<Lock, nat>, ready: set<Chan>)

  datatype Step =
    | Acquire(p: nat, l: Lock) | Release(p: nat, l: Lock)
    | Change(p: nat, next: set<Chan>, made: set<Chan>)
    | CallSleep(p: nat, c: Chan) | OwnAcquire(p: nat) | SleepMark(p: nat) | Swtch(p: nat)
    | SchedAcquire(p: nat) | SchedRelease(p: nat) | SchedRun(p: nat)
    | Tidy(p: nat) | OwnRelease(p: nat)
    | CallWakeup(p: nat, c: Chan) | WakeSelf(p: nat) | WakeDone(p: nat)
    | OtherAcquire(p: nat, i: nat, why: Why) | OtherRelease(p: nat)
    | Spawn(p: nat, i: nat)

  // ----- what a step needs

  ghost predicate Holds(s: State, p: nat, l: Lock)
  {
    l in s.lock && s.lock[l] == p
  }

  ghost predicate HoldsNone(s: State, p: nat)
  {
    forall l :: l in s.lock ==> s.lock[l] != p
  }

  /** The pc values at which code outside this module runs. */
  predicate Acting(pc: Pc) { pc.Out? || pc.Exiting? || (pc.At? && pc.why.Look?) }

  /** The discipline of the callers of wakeup: a channel is made ready only with its lock held, and is
      woken before the lock is released, or has been woken under the same hold. */
  ghost predicate ChangeOk(s: State, p: nat, next: set<Chan>, made: set<Chan>)
    requires p < |s.th|
  {
    && Acting(s.th[p].pc)
    && (forall c :: c in made ==> c.Chan? && Holds(s, p, c.lock))
    && (forall c :: c in next && c !in s.ready ==> c in made || c in s.th[p].quiet)
  }

  /** The discipline of the callers of sleep: process p holds the lock of channel c and no other (sched
      panics otherwise), owes no wakeup, and has found the channel not ready. */
  ghost predicate AboutToSleep(s: State, p: nat, c: Chan)
    requires p < |s.th|
  {
    && c.Chan? && Holds(s, p, c.lock) && c !in s.ready && s.th[p].owed == {}
    && forall l :: l in s.lock && s.lock[l] == p ==> l == c.lock
  }

  ghost predicate Enabled(s: State, st: Step)
  {
    && st.p < |s.th|
    && var t := s.th[st.p];
       match st
       case Acquire(p, l) => (t.pc.Out? || (t.pc.Reacquire? && On(t.pc.c, l))) && l !in s.lock
       case Release(p, l) => (Acting(t.pc) || (t.pc.SleepLocked? && On(t.pc.c, l))) && Holds(s, p, l) && forall c ::
             c in t.owed ==> !On(c, l)
       case Change(p, next, made) => ChangeOk(s, p, next, made)
       case CallSleep(p, c) => t.pc.Out? && AboutToSleep(s, p, c)
       case OwnAcquire(p) => (t.pc.SleepCall? || t.pc.Out?) && t.plock.Free?
       case SleepMark(p) => t.pc.SleepSet?
       case Swtch(p) => t.pc.Switching? || (t.pc.Exiting? && HoldsNone(s, p))
       case SchedAcquire(p) => t.plock.Free?
       case SchedRelease(p) => t.plock.Sched?
       case SchedRun(p) => t.plock.Sched? && t.run.Runnable? && (t.pc.OffCpu? || t.pc.Newborn?)
       case Tidy(p) => t.pc.Resumed?
       case OwnRelease(p) => t.pc.Tidied? || t.pc.FirstRun?
       case CallWakeup(p, c) => t.pc.Out? && c.Chan?
       case WakeSelf(p) => t.pc.Waking? && t.pc.i == p
       case WakeDone(p) => t.pc.Waking? && t.pc.i >= |s.th|
       case OtherAcquire(p, i, why) => (if why.Wake? then t.pc == Waking(why.c, i) else t.pc.Out?) && i != p &&
             i < |s.th| && s.th[i].plock.Free?
       case OtherRelease(p) => t.pc.At? && t.pc.i < |s.th| && t.pc.i != p
       case Spawn(p, i) => t.pc.Out? && i < |s.th| && i != p && s.th[i].pc.Dead? && s.th[i].plock.Free?
  }

  // ----- what a step does

  function Put(s: State, p: nat, t: Thread): (r: State)
    requires p < |s.th|
  {
    s.(th := s.th[p := t])
  }

  /** Process i when the one that holds its lock for `why` lets go of it: wakeup makes it RUNNABLE if it
      sleeps on the channel, kkill if it sleeps at all. */
  function Released(t: Thread, why: Why): (r: Thread)
  {
    var wake := t.run.Sleeping? && (why.Kill? || (why.Wake? && t.chan == why.c));
    t.(plock := Free, run := if wake then Runnable else t.run)
  }

  /** What is left of `quiet` once lock l is released. */
  function Unquiet(quiet: set<Chan>, l: Lock): (r: set<Chan>)
  {
    set c | c in quiet && !On(c, l)
  }

  ghost function After(s: State, st: Step): (r: State)
    requires Enabled(s, st)
    ensures |r.th| == |s.th|
  {
    var p := st.p;
    var t := s.th[p];
    match st
    case Acquire(_, l) => Put(s, p, t.(pc := Out)).(lock := s.lock[l := p])
    case Release(_, l) =>
          Put(s, p, t.(pc := if t.pc.SleepLocked? then SleepSet(t.pc.c) else t.pc,
                quiet := Unquiet(t.quiet, l))).(lock := s.lock - {l})
    case Change(_, next, made) => Put(s, p, t.(owed := t.owed + made)).(ready := next)
    case CallSleep(_, c) => Put(s, p, t.(pc := SleepCall(c)))
    case OwnAcquire(_) => Put(s, p, t.(pc := if t.pc.Out? then Exiting else SleepLocked(t.pc.c), plock := By(p)))
    case SleepMark(_) => Put(s, p, t.(pc := Switching(t.pc.c), chan := t.pc.c, run := Sleeping))
    case Swtch(_) =>
      Put(s, p, if t.pc.Exiting? then t.(pc := Dead, plock := Sched, run := Off)
                else t.(pc := OffCpu(t.pc.c), plock := Sched))
    case SchedAcquire(_) => Put(s, p, t.(plock := Sched))
    case SchedRelease(_) => Put(s, p, t.(plock := Free))
    case SchedRun(_) => Put(s, p,
          t.(run := Running, plock := By(p), pc := if t.pc.OffCpu? then Resumed(t.pc.c) else FirstRun))
    case Tidy(_) => Put(s, p, t.(pc := Tidied(t.pc.c), chan := NoChan))
    case OwnRelease(_) => Put(s, p, t.(pc := if t.pc.Tidied? then Reacquire(t.pc.c) else Out, plock := Free))
    case CallWakeup(_, c) => Put(s, p, t.(pc := Waking(c, 0)))
    case WakeSelf(_) => Put(s, p, t.(pc := Waking(t.pc.c, t.pc.i + 1)))
    case WakeDone(_) => Put(s, p, t.(pc := Out, owed := t.owed - {t.pc.c},
                                     quiet := if t.pc.c.Chan? && Holds(s, p, t.pc.c.lock) then t.quiet + {t.pc.c}
                                              else t.quiet))
    case OtherAcquire(_, i, why) => Put(Put(s, i, s.th[i].(plock := By(p))), p, t.(pc := At(i, why)))
    case OtherRelease(_) =>
          Put(Put(s, t.pc.i, Released(s.th[t.pc.i], t.pc.why)), p,
                t.(pc := if t.pc.why.Wake? then Waking(t.pc.why.c, t.pc.i + 1) else Out))
    case Spawn(_, i) => Put(s, i, s.th[i].(pc := Newborn, run := Runnable))
  }

  /** A run: every step enabled where it is taken. */
  ghost predicate Legal(s: State, run: seq<Step>)
    decreases |run|
  {
    run == [] || (Enabled(s, run[0]) && Legal(After(s, run[0]), run[1..]))
  }

  ghost function End(s: State, run: seq<Step>): (r: State)
    requires Legal(s, run)
    decreases |run|
  {
    if run == [] then s else End(After(s, run[0]), run[1..])
  }

  // ----- the invariant

  /** A process has let go of the condition lock of pc.c on its way to sleep and has not been woken. */
  predicate Pending(t: Thread)
  {
    t.pc.SleepSet? || t.pc.Switching? || (t.pc.OffCpu? && t.run.Sleeping?)
  }

  /** A process holds its own p->lock. */
  predicate OwnLock(pc: Pc)
  {
    pc.SleepLocked? || pc.SleepSet? || pc.Switching? || pc.Resumed? || pc.Tidied? || pc.Exiting? || pc.FirstRun?
  }

  /** The process is inside sleep past the release of the condition lock, or is no process at all. */
  predicate LetGo(pc: Pc)
  {
    pc.SleepSet? || pc.Switching? || pc.OffCpu? || pc.Resumed? || pc.Tidied? || pc.Reacquire? || pc.Dead? ||
          pc.Newborn? || pc.FirstRun?
  }

  /** How a process's own fields follow its pc. */
  ghost predicate ThreadOk(p: nat, t: Thread)
  {
    && (OwnLock(t.pc) ==> t.plock == By(p))
    && (t.run.Sleeping? ==> t.pc.Switching? || t.pc.OffCpu?)
    && (t.pc.Switching? ==> t.run.Sleeping?)
    && (t.pc.Switching? || t.pc.OffCpu? ==> t.chan == t.pc.c)
    && (t.pc.SleepCall? || LetGo(t.pc) || t.pc.SleepLocked? ==> t.owed == {})
    && (LetGo(t.pc) ==> t.quiet == {})
    && (Pending(t) ==> t.pc.c.Chan?)
  }

  /** What process p says about the locks. */
  ghost predicate LocksOk(s: State, p: nat)
    requires p < |s.th|
  {
    var t := s.th[p];
    && (t.pc.SleepCall? || t.pc.SleepLocked? ==> AboutToSleep(s, p, t.pc.c))
    && (LetGo(t.pc) ==> HoldsNone(s, p))
  }

  ghost predicate AtOk(s: State, p: nat)
    requires p < |s.th|
  {
    var t := s.th[p];
    t.pc.At? ==> t.pc.i < |s.th| && t.pc.i != p && s.th[t.pc.i].plock == By(p)
  }

  ghost predicate OwedOk(s: State, p: nat)
    requires p < |s.th|
  {
    forall c :: c in s.th[p].owed || c in s.th[p].quiet ==> c.Chan? && Holds(s, p, c.lock)
  }

  /** No wakeup is lost to process p: if it is on its way to sleep, or sleeps, on a ready channel, the
      holder of the condition lock still owes a wakeup. */
  ghost predicate NotLost(s: State, p: nat)
    requires p < |s.th|
  {
    var t := s.th[p];
    Pending(t) && t.pc.c in s.ready ==>
      t.pc.c.Chan? && t.pc.c.lock in s.lock && s.lock[t.pc.c.lock] < |s.th| && t.pc.c in s.th[s.lock[t.pc.c.lock]].owed
  }

  /** How far wakeup(c) has come in process q: past process p or not. */
  predicate Past(t: Thread, c: Chan, p: nat)
  {
    (t.pc.Waking? && t.pc.c == c && t.pc.i > p) || (t.pc.At? && t.pc.why == Wake(c) && t.pc.i > p)
  }

  /** The channels process q has finished waking have no pending sleeper. */
  ghost predicate Hushed(s: State, q: nat, p: nat)
    requires p < |s.th| && q < |s.th|
  {
    Pending(s.th[p]) ==> s.th[p].pc.c !in s.th[q].quiet
  }

  /** The channel process q is waking has, before q's place in the table, no pending sleeper. */
  ghost predicate Swept(s: State, q: nat, p: nat)
    requires p < |s.th| && q < |s.th|
  {
    var t, u := s.th[p], s.th[q];
    Pending(t) && Past(u, t.pc.c, p) ==> t.pc.c.Chan? && !Holds(s, q, t.pc.c.lock)
  }

  ghost predicate Inv(s: State)
  {
    && (forall p :: 0 <= p < |s.th| ==> ThreadOk(p, s.th[p]) && LocksOk(s, p) && AtOk(s, p) && OwedOk(s, p))
    && (forall p :: 0 <= p < |s.th| ==> NotLost(s, p))
    && (forall q, p :: 0 <= q < |s.th| && 0 <= p < |s.th| ==> Hushed(s, q, p) && Swept(s, q, p))
    && (forall l :: l in s.lock ==> s.lock[l] < |s.th|)
  }

  /** The invariant at process p, and at a pair of processes. */
  lemma InvAt(s: State, p: nat)
    requires Inv(s) && p < |s.th|
    ensures ThreadOk(p, s.th[p]) && LocksOk(s, p) && AtOk(s, p) && OwedOk(s, p) && NotLost(s, p)
  {
    hide ThreadOk, LocksOk, AtOk, OwedOk, NotLost, Hushed, Swept;
  }

  lemma InvFor(s: State, q: nat, p: nat)
    requires Inv(s) && q < |s.th| && p < |s.th|
    ensures Hushed(s, q, p) && Swept(s, q, p)
  {
    hide ThreadOk, LocksOk, AtOk, OwedOk, NotLost, Hushed, Swept;
  }

  /** Steps that take or release another process's lock, or start one. */
  predicate Visits(st: Step) { st.OtherAcquire? || st.OtherRelease? || st.Spawn? }

  lemma ThreadKept(s: State, st: Step, x: nat)
    requires Inv(s) && Enabled(s, st) && x < |s.th|
    ensures ThreadOk(x, After(s, st).th[x])
  {
    if Visits(st) {
      ThreadVisit(s, st, x);
    } else {
      ThreadElse(s, st, x);
    }
  }

  lemma ThreadVisit(s: State, st: Step, x: nat)
    requires Inv(s) && Enabled(s, st) && x < |s.th| && Visits(st)
    ensures ThreadOk(x, After(s, st).th[x])
  {
    hide NotLost, Inv, LocksOk, OwedOk, Unquiet;
    InvAt(s, x);
    InvAt(s, st.p);
  }

  lemma ThreadElse(s: State, st: Step, x: nat)
    requires Inv(s) && Enabled(s, st) && x < |s.th| && !Visits(st)
    ensures ThreadOk(x, After(s, st).th[x])
  {
    hide NotLost, Inv, AtOk;
    InvAt(s, x);
    InvAt(s, st.p);
  }

  lemma LocksKept(s: State, st: Step, x: nat)
    requires Inv(s) && Enabled(s, st) && x < |s.th|
    ensures LocksOk(After(s, st), x)
  {
    if x == st.p {
      LocksOwn(s, st);
    } else {
      LocksOther(s, st, x);
    }
  }

  lemma LocksOwn(s: State, st: Step)
    requires Inv(s) && Enabled(s, st)
    ensures LocksOk(After(s, st), st.p)
  {
    hide NotLost, Swept, Hushed, ThreadOk, Unquiet, Inv;
    InvAt(s, st.p);
  }

  lemma LocksOther(s: State, st: Step, x: nat)
    requires Inv(s) && Enabled(s, st) && x < |s.th| && x != st.p
    ensures LocksOk(After(s, st), x)
  {
    hide NotLost, Swept, Hushed, ThreadOk, Unquiet, Inv, AtOk;
    InvAt(s, st.p);
    InvAt(s, x);
  }

  lemma AtKept(s: State, st: Step, x: nat)
    requires Inv(s) && Enabled(s, st) && x < |s.th|
    ensures AtOk(After(s, st), x)
  {
    hide NotLost, Swept, Hushed, LocksOk, OwedOk, AboutToSleep, HoldsNone, Unquiet, Inv;
    InvAt(s, st.p);
    InvAt(s, x);
  }

  lemma OwedKept(s: State, st: Step, x: nat)
    requires Inv(s) && Enabled(s, st) && x < |s.th|
    ensures OwedOk(After(s, st), x)
  {
    hide NotLost, Swept, Hushed, LocksOk, AboutToSleep, HoldsNone, Inv;
    InvAt(s, st.p);
    InvAt(s, x);
  }

  lemma NotLostKept(s: State, st: Step, x: nat)
    requires Inv(s) && Enabled(s, st) && x < |s.th|
    ensures NotLost(After(s, st), x)
  {
    if Visits(st) {
      NotLostVisit(s, st, x);
    } else {
      NotLostElse(s, st, x);
    }
  }

  lemma NotLostVisit(s: State, st: Step, x: nat)
    requires Inv(s) && Enabled(s, st) && x < |s.th| && Visits(st)
    ensures NotLost(After(s, st), x)
  {
    hide HoldsNone, Unquiet, Inv, OwedOk, LocksOk, Hushed, Swept;
    InvAt(s, st.p);
    InvAt(s, x);
  }

  lemma NotLostElse(s: State, st: Step, x: nat)
    requires Inv(s) && Enabled(s, st) && x < |s.th| && !Visits(st)
    ensures NotLost(After(s, st), x)
  {
    hide HoldsNone, Unquiet, Inv, AtOk, OwedOk;
    InvAt(s, st.p);
    InvAt(s, x);
    InvFor(s, st.p, x);
  }

  lemma HushedKept(s: State, st: Step, q: nat, x: nat)
    requires Inv(s) && Enabled(s, st) && q < |s.th| && x < |s.th|
    ensures Hushed(After(s, st), q, x)
  {
    hide NotLost, HoldsNone, Inv, ThreadOk;
    InvAt(s, st.p);
    InvAt(s, q);
    InvFor(s, q, x);
  }

  lemma SweptKept(s: State, st: Step, q: nat, x: nat)
    requires Inv(s) && Enabled(s, st) && q < |s.th| && x < |s.th|
    ensures Swept(After(s, st), q, x)
  {
    if Visits(st) {
      SweptVisit(s, st, q, x);
    } else {
      SweptElse(s, st, q, x);
    }
  }

  lemma SweptVisit(s: State, st: Step, q: nat, x: nat)
    requires Inv(s) && Enabled(s, st) && q < |s.th| && x < |s.th| && Visits(st)
    ensures Swept(After(s, st), q, x)
  {
    hide NotLost, HoldsNone, Hushed, OwedOk, LocksOk, Unquiet, Inv;
    InvAt(s, st.p);
    InvAt(s, x);
    InvFor(s, q, x);
  }

  lemma SweptElse(s: State, st: Step, q: nat, x: nat)
    requires Inv(s) && Enabled(s, st) && q < |s.th| && x < |s.th| && !Visits(st)
    ensures Swept(After(s, st), q, x)
  {
    hide NotLost, HoldsNone, Hushed, OwedOk, Unquiet, Inv, AtOk;
    InvAt(s, st.p);
    InvAt(s, x);
    InvFor(s, q, x);
  }

  /** Every step of every process and scheduler keeps the invariant. */
  lemma StepInv(s: State, st: Step)
    requires Inv(s) && Enabled(s, st)
    ensures Inv(After(s, st)) && |After(s, st).th| == |s.th|
  {
    var r := After(s, st);
    forall p | 0 <= p < |r.th|
      ensures ThreadOk(p, r.th[p]) && LocksOk(r, p) && AtOk(r, p) && OwedOk(r, p) && NotLost(r, p)
    {
      ThreadKept(s, st, p);
      LocksKept(s, st, p);
      AtKept(s, st, p);
      OwedKept(s, st, p);
      NotLostKept(s, st, p);
    }
    forall q, p | 0 <= q < |r.th| && 0 <= p < |r.th| ensures Hushed(r, q, p) && Swept(r, q, p) {
      HushedKept(s, st, q, p);
      SweptKept(s, st, q, p);
    }
  }

  /** Process x stands where it stood, holding and owing what it did; another may have woken it, or made it
      a new process. */
  ghost predicate Untouched(s: State, r: State, x: nat)
  {
    && x < |s.th| == |r.th| && r.th[x].owed == s.th[x].owed && r.th[x].quiet == s.th[x].quiet
    && (r.th[x].pc == s.th[x].pc || (s.th[x].pc.Dead? && r.th[x].pc.Newborn?))
    && forall l :: (l in s.lock && s.lock[l] == x) <==> (l in r.lock && r.lock[l] == x)
  }

  lemma OthersUntouched(s: State, st: Step, x: nat)
    requires Inv(s) && Enabled(s, st) && x < |s.th| && x != st.p
    ensures Untouched(s, After(s, st), x) && (!st.Spawn? ==> After(s, st).th[x].pc == s.th[x].pc)
  {
    hide Inv, ChangeOk, AboutToSleep, Unquiet;
  }

  lemma ReadyAfter(s: State, st: Step)
    requires Enabled(s, st)
    ensures After(s, st).ready == if st.Change? then st.next else s.ready
  {
    hide ChangeOk, AboutToSleep, Unquiet;
  }

  /** A change that makes nothing ready moves no process. */
  lemma ChangeOnly(s: State, p: nat, next: set<Chan>)
    requires Enabled(s, Change(p, next, {}))
    ensures After(s, Change(p, next, {})) == s.(ready := next)
  {
    assert s.th[p].owed + {} == s.th[p].owed;
    assert s.th[p := s.th[p]] == s.th;
  }

  /** Where process x stands after a change, or after a release outside sleep. */
  lemma Stands(s: State, st: Step, x: nat)
    requires Enabled(s, st) && (st.Change? || (st.Release? && !s.th[st.p].pc.SleepLocked?)) && x < |s.th|
    ensures After(s, st).th[x].pc == s.th[x].pc
  {
    hide ChangeOk, Unquiet;
  }

  lemma SpawnStands(s: State, st: Step, x: nat)
    requires Enabled(s, st) && st.Spawn? && x < |s.th|
    ensures After(s, st).th[x].pc == if x == st.i then Newborn else s.th[x].pc
  {
  }

  lemma LivesOn(s: State, st: Step)
    requires Enabled(s, st) && !s.th[st.p].pc.Dead? && !st.Swtch?
    ensures !After(s, st).th[st.p].pc.Dead?
  {
    hide ChangeOk, AboutToSleep, Unquiet;
  }

  lemma DeadStays(s: State, st: Step, i: nat)
    requires Inv(s) && Enabled(s, st) && i < |s.th| && s.th[i].pc.Dead? && !(st.Spawn? && st.i == i)
    ensures After(s, st).th[i].pc.Dead?
  {
    hide NotLost, Swept, Hushed, ChangeOk, AboutToSleep;
    assert ThreadOk(i, s.th[i]);
  }

  /** What kkill does to the process it has found: it no longer sleeps, whatever it slept on. */
  lemma KillWakes(s: State, st: Step)
    requires Inv(s) && Enabled(s, st) && st.OtherRelease? && s.th[st.p].pc.why.Kill?
    ensures var i, r := s.th[st.p].pc.i, After(s, st);
            && i < |s.th| && r.th[i].run == (if s.th[i].run.Sleeping? then Runnable else s.th[i].run)
            && r.th[i].plock.Free? && r.th[st.p].pc.Out?
            && forall x :: 0 <= x < |s.th| && x != i ==> r.th[x].run == s.th[x].run
  {
  }

  // ----- for the clients

  /** Process p holds spin lock k and no other. */
  ghost predicate Only(s: State, p: nat, k: nat)
  {
    Holds(s, p, k) && forall l :: l in s.lock && s.lock[l] == p ==> l == k
  }

  predicate InSleep(pc: Pc)
  {
    pc.SleepCall? || pc.SleepLocked? || pc.SleepSet? || pc.Switching? || pc.OffCpu? || pc.Resumed? || pc.Tidied? ||
          pc.Reacquire?
  }

  predicate InWake(pc: Pc, c: Chan)
  {
    (pc.Waking? && pc.c == c) || (pc.At? && pc.why == Wake(c))
  }

  /** One process runs, the rest of the table is unused, no lock is held. */
  ghost predicate Start(s: State)
  {
    && s.lock == map[] && |s.th| > 0
    && s.th[0] == Thread(Out, Running, NoChan, Free, {}, {})
    && forall p :: 0 < p < |s.th| ==> s.th[p] == Thread(Dead, Off, NoChan, Free, {}, {})
  }

  lemma StartInv(s: State)
    requires Start(s)
    ensures Inv(s)
  {
  }

  lemma {:induction false} RunInv(s: State, run: seq<Step>)
    requires Inv(s) && Legal(s, run)
    ensures Inv(End(s, run))
    decreases |run|
  {
    if run != [] {
      StepInv(s, run[0]);
      RunInv(After(s, run[0]), run[1..]);
    }
  }

  /** No lost wakeup, over every run: while the lock of a channel is free, no process sleeps on the channel,
      or is past the point of no return on its way there, although the channel is ready. */
  lemma NoLostWakeup(s: State, run: seq<Step>, p: nat, c: Chan)
    requires Start(s) && Legal(s, run) && c.Chan? && p < |End(s, run).th|
    ensures var e := End(s, run); var t := e.th[p];
            c.lock !in e.lock && c in e.ready ==> !(t.run.Sleeping? && t.chan == c) && !(Pending(t) && t.pc.c == c)
  {
    StartInv(s);
    RunInv(s, run);
    hide Start, LocksOk, OwedOk, Swept, Hushed;
    var e := End(s, run);
    assert ThreadOk(p, e.th[p]) && NotLost(e, p);
  }

  /** The hand-off of p->lock: a process whose p->lock is held by nobody or by another process is not on a
      processor inside sleep, exit or its first scheduling. */
  lemma HandOff(s: State, run: seq<Step>, p: nat)
    requires Start(s) && Legal(s, run) && p < |End(s, run).th|
    ensures var t := End(s, run).th[p]; t.plock != By(p) ==> !OwnLock(t.pc)
  {
    StartInv(s);
    RunInv(s, run);
    hide Start, LocksOk, OwedOk, Swept, Hushed, NotLost;
    assert ThreadOk(p, End(s, run).th[p]);
  }
}
