/** kfork, kexit, reparent and kwait (kernel/proc.c) as clients of sleep and wakeup under wait_lock. */
module ExitWait {
  import opened SleepWakeup

  /** wait_lock, and the slot of initproc. */
  const WAIT: Lock := 0
  const INIT := 0
  const NONE := -1

  /** An entry of the process table.  A slot with pid 0 is UNUSED; `maker` is the process that is still
      creating it in kfork. */
  datatype Slot = Slot(pid: nat, parent: int, zombie: bool, xstate: int, maker: int)

  const UNUSED := Slot(0, NONE, false, 0, NONE)

  /** Where a process is in kfork, kexit or kwait. */
  datatype Ctl =
    | Idle
    | Made(i: nat) | Adopting(i: nat) | Adopted(i: nat) | Starting(i: nat)
    | Reparent(j: nat) | WakeInit(j: nat) | WokenInit(j: nat) | WokenParent | OwnLocked | Zombied
    | Scan(j: nat, kids: bool) | Looking(j: nat) | Staying | Reaped | Leaving

  datatype Reap = Reap(parent: nat, status: int)

  /** `exited` and `reaped` are the ledgers of pids: the status a process exited with, and who was given it;
      `killed` are the processes that kkill has marked. */
  datatype World = World(sys: State, slots: seq<Slot>, ctl: seq<Ctl>, nextPid: nat, exited: map<nat, int>,
                         reaped: map<nat, Reap>, killed: set<nat>)

  datatype ForkStep = Alloc(i: nat) | ForkLock | Adopt | ForkUnlock | StartChild

  datatype ExitStep =
    | ExitBegin | SkipChild | GiveChild | CallWakeInit | NextChild
    | CallWakeParent | LockSelf | BecomeZombie(status: int) | ExitUnlock

  datatype WaitStep =
    | WaitBegin | SkipSlot | GiveUp | StayOn | SleepInWait | WaitUnlock
    | LockChild | ChildAlive | ReapChild | CopyFailed | UnlockReaped

  /** A step of sleep, wakeup or the scheduler, or of process p in kfork, kexit or kwait. */
  datatype Move =
    | Inner(st: Step)
    | InFork(p: nat, f: ForkStep)
    | InExit(p: nat, e: ExitStep)
    | InWait(p: nat, x: WaitStep)

  /** The channel a process sleeps on in kwait. */
  function Ch(p: nat): Chan { Chan(WAIT, p) }

  ghost predicate HasZombie(slots: seq<Slot>, p: nat)
  {
    exists i :: 0 <= i < |slots| && slots[i].zombie && slots[i].parent == p
  }

  /** The processes with something to wait for. */
  ghost function ReadySet(slots: seq<Slot>): (r: set<Chan>)
  {
    set p: nat | 0 <= p < |slots| && HasZombie(slots, p) :: Ch(p)
  }

  ghost predicate Shape(w: World)
  {
    |w.slots| == |w.ctl| == |w.sys.th| && |w.slots| > 0
  }

  ghost predicate Here(w: World, p: nat)
    requires Shape(w)
  {
    p < |w.ctl| && w.sys.th[p].pc.Out?
  }

  /** Process p holds the lock of slot j, in kwait. */
  ghost predicate Peeking(w: World, p: nat)
    requires Shape(w)
  {
    p < |w.ctl| && w.ctl[p].Looking? && w.sys.th[p].pc == At(w.ctl[p].j, Look) && w.ctl[p].j < |w.slots|
  }

  ghost predicate InnerOk(w: World, st: Step)
    requires Shape(w)
  {
    && Enabled(w.sys, st)
    && var t := w.sys.th[st.p];
       match st
       case Acquire(_, _) => t.pc.Reacquire?
       case Release(_, _) => t.pc.SleepLocked?
       case Change(_, _, _) => false
       case CallSleep(_, _) => false
       case CallWakeup(_, _) => false
       case OwnAcquire(_) => t.pc.SleepCall?
       case OtherAcquire(_, _, why) => why.Wake? || (why.Kill? && w.ctl[st.p].Idle?)
       case OtherRelease(_) => !t.pc.why.Look?
       case Spawn(_, _) => false
       case _ => true
  }

  // ----- kfork

  ghost predicate CanFork(w: World, p: nat, f: ForkStep)
    requires Shape(w)
  {
    && Here(w, p)
    && var ctl := w.ctl[p];
       match f
       case Alloc(i) => ctl.Idle? && i < |w.slots| && i != p && w.slots[i].pid == 0
       case ForkLock => ctl.Made? && WAIT !in w.sys.lock
       case Adopt => ctl.Adopting? && ctl.i < |w.slots|
       case ForkUnlock => ctl.Adopted?
       case StartChild => ctl.Starting? && ctl.i < |w.slots| && w.sys.th[ctl.i].plock.Free?
  }

  ghost function Forked(w: World, p: nat, f: ForkStep): (r: World)
    requires Shape(w) && CanFork(w, p, f)
    ensures Shape(r) && r.sys == w.sys && |r.slots| == |w.slots|
  {
    var ctl := w.ctl[p];
    match f
    case Alloc(i) => w.(slots := w.slots[i := Slot(w.nextPid, NONE, false, 0, p)], nextPid := w.nextPid + 1,
          ctl := w.ctl[p := Made(i)])
    case ForkLock => w.(ctl := w.ctl[p := Adopting(ctl.i)])
    case Adopt => w.(slots := w.slots[ctl.i := w.slots[ctl.i].(parent := p)], ctl := w.ctl[p := Adopted(ctl.i)])
    case ForkUnlock => w.(ctl := w.ctl[p := Starting(ctl.i)])
    case StartChild => w.(slots := w.slots[ctl.i := w.slots[ctl.i].(maker := NONE)], ctl := w.ctl[p := Idle])
  }

  ghost function ForkStepOf(w: World, p: nat, f: ForkStep): (st: Step)
    requires Shape(w) && CanFork(w, p, f)
  {
    match f
    case ForkLock => Acquire(p, WAIT)
    case ForkUnlock => Release(p, WAIT)
    case StartChild => Spawn(p, w.ctl[p].i)
    case _ => Change(p, ReadySet(Forked(w, p, f).slots), {})
  }

  // ----- kexit and reparent

  ghost predicate CanExit(w: World, p: nat, e: ExitStep)
    requires Shape(w)
  {
    && p < |w.ctl| && (w.sys.th[p].pc.Out? || e.BecomeZombie? || e.ExitUnlock?)
    && var ctl := w.ctl[p];
       match e
       case ExitBegin => ctl.Idle? && p != INIT && WAIT !in w.sys.lock
       case SkipChild => ctl.Reparent? && ctl.j < |w.slots| && w.slots[ctl.j].parent != p
       case GiveChild => ctl.Reparent? && ctl.j < |w.slots| && w.slots[ctl.j].parent == p
       case CallWakeInit => ctl.WakeInit?
       case NextChild => ctl.WokenInit?
       case CallWakeParent => ctl.Reparent? && ctl.j == |w.slots| && w.slots[p].parent >= 0
       case LockSelf => ctl.WokenParent? && w.sys.th[p].plock.Free?
       case BecomeZombie(_) => ctl.OwnLocked?
       case ExitUnlock => ctl.Zombied?
  }

  ghost function Exited(w: World, p: nat, e: ExitStep): (r: World)
    requires Shape(w) && CanExit(w, p, e)
    ensures Shape(r) && r.sys == w.sys && |r.slots| == |w.slots|
  {
    var ctl := w.ctl[p];
    match e
    case ExitBegin => w.(ctl := w.ctl[p := Reparent(0)])
    case SkipChild => w.(ctl := w.ctl[p := Reparent(ctl.j + 1)])
    case GiveChild => w.(slots := w.slots[ctl.j := w.slots[ctl.j].(parent := INIT)], ctl := w.ctl[p := WakeInit(ctl.j)])
    case CallWakeInit => w.(ctl := w.ctl[p := WokenInit(ctl.j)])
    case NextChild => w.(ctl := w.ctl[p := Reparent(ctl.j + 1)])
    case CallWakeParent => w.(ctl := w.ctl[p := WokenParent])
    case LockSelf => w.(ctl := w.ctl[p := OwnLocked])
    case BecomeZombie(status) => w.(slots := w.slots[p := w.slots[p].(zombie := true, xstate := status)],
                                    ctl := w.ctl[p := Zombied], exited := w.exited[w.slots[p].pid := status])
    case ExitUnlock => w.(ctl := w.ctl[p := Idle])
  }

  ghost function ExitStepOf(w: World, p: nat, e: ExitStep): (st: Step)
    requires Shape(w) && CanExit(w, p, e)
  {
    match e
    case ExitBegin => Acquire(p, WAIT)
    case GiveChild => Change(p, ReadySet(Exited(w, p, e).slots), {Ch(INIT)})
    case CallWakeInit => CallWakeup(p, Ch(INIT))
    case CallWakeParent => CallWakeup(p, Ch(w.slots[p].parent))
    case LockSelf => OwnAcquire(p)
    case ExitUnlock => Release(p, WAIT)
    case _ => Change(p, ReadySet(Exited(w, p, e).slots), {})
  }

  // ----- kwait

  ghost predicate CanWait(w: World, p: nat, x: WaitStep)
    requires Shape(w)
  {
    && p < |w.ctl|
    && var ctl := w.ctl[p];
       match x
       case WaitBegin => Here(w, p) && ctl.Idle? && WAIT !in w.sys.lock
       case SkipSlot => Here(w, p) && ctl.Scan? && ctl.j < |w.slots| && w.slots[ctl.j].parent != p
       // killed(p) is read under p->lock, before sleep is called
       case GiveUp => Here(w, p) && ctl.Scan? && ctl.j == |w.slots| && (!ctl.kids || p in w.killed)
       case StayOn => Here(w, p) && ctl.Scan? && ctl.j == |w.slots| && ctl.kids && p !in w.killed
       case SleepInWait => Here(w, p) && ctl.Staying?
       case WaitUnlock => Here(w, p) && ctl.Leaving?
       case LockChild => Here(w, p) && ctl.Scan? && ctl.j < |w.slots| && w.slots[ctl.j].parent == p && ctl.j != p &&
             w.sys.th[ctl.j].plock.Free?
       case ChildAlive => Peeking(w, p) && !w.slots[ctl.j].zombie
       case ReapChild => Peeking(w, p) && w.slots[ctl.j].zombie
       case CopyFailed => Peeking(w, p) && w.slots[ctl.j].zombie
       case UnlockReaped => ctl.Reaped?
  }

  ghost function Waited(w: World, p: nat, x: WaitStep): (r: World)
    requires Shape(w) && CanWait(w, p, x)
    ensures Shape(r) && r.sys == w.sys && |r.slots| == |w.slots|
  {
    var ctl := w.ctl[p];
    match x
    case WaitBegin => w.(ctl := w.ctl[p := Scan(0, false)])
    case SkipSlot => w.(ctl := w.ctl[p := Scan(ctl.j + 1, ctl.kids)])
    case GiveUp => w.(ctl := w.ctl[p := Leaving])
    case StayOn => w.(ctl := w.ctl[p := Staying])
    case SleepInWait => w.(ctl := w.ctl[p := Scan(0, false)])
    case WaitUnlock => w.(ctl := w.ctl[p := Idle])
    case LockChild => w.(ctl := w.ctl[p := Looking(ctl.j)])
    case ChildAlive => w.(ctl := w.ctl[p := Scan(ctl.j + 1, true)])
    case ReapChild => w.(slots := w.slots[ctl.j := UNUSED], ctl := w.ctl[p := Reaped], killed := w.killed - {ctl.j},
                         reaped := w.reaped[w.slots[ctl.j].pid := Reap(w.slots[p].pid, w.slots[ctl.j].xstate)])
    case CopyFailed => w.(ctl := w.ctl[p := Leaving])
    case UnlockReaped => w.(ctl := w.ctl[p := Leaving])
  }

  ghost function WaitStepOf(w: World, p: nat, x: WaitStep): (st: Step)
    requires Shape(w) && CanWait(w, p, x)
  {
    match x
    case WaitBegin => Acquire(p, WAIT)
    case SleepInWait => CallSleep(p, Ch(p))
    case WaitUnlock => Release(p, WAIT)
    case LockChild => OtherAcquire(p, w.ctl[p].j, Look)
    case ChildAlive => OtherRelease(p)
    case CopyFailed => OtherRelease(p)
    case UnlockReaped => OtherRelease(p)
    case _ => Change(p, ReadySet(Waited(w, p, x).slots), {})
  }

  // ----- any move

  ghost predicate CanMove(w: World, m: Move)
    requires Shape(w)
  {
    match m
    case Inner(st) => InnerOk(w, st)
    case InFork(p, f) => CanFork(w, p, f)
    case InExit(p, e) => CanExit(w, p, e)
    case InWait(p, x) => CanWait(w, p, x)
  }

  /** The process that kkill marks before it lets go of its lock. */
  ghost function Kills(w: World, st: Step): (r: set<nat>)
    requires Enabled(w.sys, st)
  {
    if st.OtherRelease? && w.sys.th[st.p].pc.why.Kill? then {w.sys.th[st.p].pc.i} else {}
  }

  /** The table, the control points and the ledgers after a move. */
  ghost function Moved(w: World, m: Move): (r: World)
    requires Shape(w) && CanMove(w, m)
    ensures Shape(r) && r.sys == w.sys && |r.slots| == |w.slots|
  {
    match m
    case Inner(st) => w.(killed := w.killed + Kills(w, st))
    case InFork(p, f) => Forked(w, p, f)
    case InExit(p, e) => Exited(w, p, e)
    case InWait(p, x) => Waited(w, p, x)
  }

  /** The step a move takes in the machine below; moves that touch no lock change `ready` at most. */
  ghost function StepOf(w: World, m: Move): (st: Step)
    requires Shape(w) && CanMove(w, m)
  {
    match m
    case Inner(st) => st
    case InFork(p, f) => ForkStepOf(w, p, f)
    case InExit(p, e) => ExitStepOf(w, p, e)
    case InWait(p, x) => WaitStepOf(w, p, x)
  }

  // ----- the invariant

  /** None of the first j slots is a child of p. */
  ghost predicate NoChild(slots: seq<Slot>, p: nat, j: nat)
  {
    forall i :: 0 <= i < j && i < |slots| ==> slots[i].parent != p
  }

  ghost predicate NoZombie(slots: seq<Slot>, p: nat, j: nat)
  {
    forall i :: 0 <= i < j && i < |slots| ==> !(slots[i].parent == p && slots[i].zombie)
  }

  /** Process p is making slot i. */
  ghost predicate Making(w: World, p: nat, i: nat)
  {
    && i < |w.slots| == |w.sys.th| && i != p && w.slots[i].maker == p && w.slots[i].pid > 0 && !w.slots[i].zombie
    && w.sys.th[i].pc.Dead?
  }

  /** What p's place in kfork, kexit or kwait says about locks, wakeups and the table. */
  ghost predicate CtlOk(w: World, p: nat)
    requires Shape(w) && p < |w.ctl|
  {
    var t, s, me := w.sys.th[p], w.sys, w.slots[p];
    match w.ctl[p]
    case Idle => HoldsNone(s, p) && t.owed == {} &&
          (t.pc.Out? || (t.pc.At? && t.pc.why.Kill?) || t.pc.Dead? || t.pc.Newborn? || t.pc.FirstRun? ||
                (t.pc.Exiting? && me.zombie))
    case Made(i) => t.pc.Out? && HoldsNone(s, p) && t.owed == {} && Making(w, p, i) && w.slots[i].parent == NONE
    case Adopting(i) => t.pc.Out? && Only(s, p, WAIT) && t.owed == {} && Making(w, p, i) && w.slots[i].parent == NONE
    case Adopted(i) => t.pc.Out? && Only(s, p, WAIT) && t.owed == {} && Making(w, p, i) && w.slots[i].parent == p
    case Starting(i) => t.pc.Out? && HoldsNone(s, p) && t.owed == {} && Making(w, p, i) && w.slots[i].parent == p
    case Reparent(j) => t.pc.Out? && Only(s, p, WAIT) && t.owed == {} && p != INIT && j <= |w.slots| &&
          NoChild(w.slots, p, j)
    case WakeInit(j) => t.pc.Out? && Only(s, p, WAIT) && t.owed <= {Ch(INIT)} && p != INIT && j < |w.slots| &&
          NoChild(w.slots, p, j + 1)
    case WokenInit(j) => Only(s, p, WAIT) && p != INIT && j < |w.slots| && NoChild(w.slots, p, j + 1)
                         && ((t.pc.Out? && t.owed == {}) || (InWake(t.pc, Ch(INIT)) && t.owed <= {Ch(INIT)}))
    case WokenParent => Only(s, p, WAIT) && p != INIT && NoChild(w.slots, p, |w.slots|) && t.owed == {} &&
          me.parent >= 0
                        && ((t.pc.Out? && Ch(me.parent) in t.quiet) || InWake(t.pc, Ch(me.parent)))
    case OwnLocked => t.pc.Exiting? && Only(s, p, WAIT) && p != INIT && NoChild(w.slots, p, |w.slots|) &&
          t.owed == {} && me.parent >= 0 && Ch(me.parent) in t.quiet
    case Zombied => t.pc.Exiting? && Only(s, p, WAIT) && t.owed == {} && me.zombie
    case Scan(j, kids) =>
      || (InSleep(t.pc) && t.pc.c == Ch(p) && j == 0 && !kids && !NoChild(w.slots, p, |w.slots|))
      || (t.pc.Out? && Only(s, p, WAIT) && t.owed == {} && j <= |w.slots| && NoZombie(w.slots, p, j)
          && kids == !NoChild(w.slots, p, j))
    case Looking(j) => t.pc == At(j, Look) && Only(s, p, WAIT) && t.owed == {} && j < |w.slots| &&
          w.slots[j].parent == p && NoZombie(w.slots, p, j)
    case Staying => t.pc.Out? && Only(s, p, WAIT) && t.owed == {} && NoZombie(w.slots, p, |w.slots|) &&
          !NoChild(w.slots, p, |w.slots|)
    case Reaped => t.pc.At? && t.pc.why.Look? && Only(s, p, WAIT) && t.owed == {}
    case Leaving => t.pc.Out? && Only(s, p, WAIT) && t.owed == {}
  }

  predicate MakingCtl(ctl: Ctl, i: nat)
  {
    (ctl.Made? || ctl.Adopting? || ctl.Adopted? || ctl.Starting?) && ctl.i == i
  }

  /** A slot by itself and with its process. */
  ghost predicate SlotOk(w: World, i: nat)
    requires Shape(w) && i < |w.slots|
  {
    var s, t := w.slots[i], w.sys.th[i];
    && (s.pid == 0 ==> s == UNUSED && t.pc.Dead? && w.ctl[i].Idle?)
    && (s.zombie ==> (t.pc.Exiting? && (w.ctl[i].Zombied? || w.ctl[i].Idle?)) || (t.pc.Dead? && w.ctl[i].Idle?))
    && (s.zombie ==> s.maker == NONE && s.parent >= 0)
    && (t.pc.Dead? ==> s.pid == 0 || s.zombie || s.maker >= 0)
    && (s.maker >= 0 ==> w.ctl[i].Idle? && !s.zombie && t.pc.Dead? && (s.parent == NONE || s.parent == s.maker))
    && (s.pid > 0 && s.maker == NONE && i != INIT ==> s.parent >= 0)
    && NONE <= s.parent < |w.slots| && NONE <= s.maker < |w.slots| && (s.maker >= 0 ==> MakingCtl(w.ctl[s.maker], i))
    && (s.parent >= 0 ==>
          s.parent != i && w.slots[s.parent].pid > 0 && !w.slots[s.parent].zombie && w.slots[s.parent].maker == NONE)
  }

  /** The ledgers: pids are never reused, a zombie holds the status it exited with, and what was reaped was
      what had been exited with. */
  ghost predicate LedgerOk(w: World)
  {
    && (forall i :: 0 <= i < |w.slots| ==> w.slots[i].pid < w.nextPid)
    && (forall i, j :: 0 <= i < j < |w.slots| && w.slots[i].pid > 0 ==> w.slots[i].pid != w.slots[j].pid)
    && (forall i :: 0 <= i < |w.slots| && w.slots[i].pid > 0 ==>
          w.slots[i].pid !in w.reaped && (w.slots[i].pid in w.exited <==> w.slots[i].zombie))
    && (forall i :: 0 <= i < |w.slots| && w.slots[i].zombie ==>
          w.slots[i].pid > 0 && w.exited[w.slots[i].pid] == w.slots[i].xstate)
    && (forall d :: d in w.reaped ==> d in w.exited && w.reaped[d].status == w.exited[d])
    && (forall d :: d in w.exited ==> d < w.nextPid)
  }

  ghost predicate WInv(w: World)
  {
    && Shape(w) && SleepWakeup.Inv(w.sys) && w.sys.ready == ReadySet(w.slots) && LedgerOk(w) && w.nextPid > 0
    && (forall p :: 0 <= p < |w.ctl| ==> CtlOk(w, p))
    && (forall i :: 0 <= i < |w.slots| ==> SlotOk(w, i))
    && w.slots[INIT].pid > 0 && !w.slots[INIT].zombie && w.slots[INIT].maker == NONE == w.slots[INIT].parent
  }

  // ----- every move is a legal step of the machine below

  /** When only slot j changes, at most the channel of j's new parent becomes ready. */
  lemma ReadyGrows(a: seq<Slot>, b: seq<Slot>, j: nat)
    requires |a| == |b| && j < |a| && forall i :: 0 <= i < |a| && i != j ==> b[i] == a[i]
    ensures ReadySet(b) <= ReadySet(a) +
              if b[j].zombie && b[j].parent >= 0 && b[j] != a[j] then {Ch(b[j].parent)} else {}
  {
    forall q: nat | q < |b| && HasZombie(b, q) && !(b[j].zombie && b[j].parent == q && b[j] != a[j])
      ensures HasZombie(a, q)
    {
      var i :| 0 <= i < |b| && b[i].zombie && b[i].parent == q;
      assert a[i].zombie && a[i].parent == q;
    }
  }

  lemma ForkEnabled(w: World, p: nat, f: ForkStep)
    requires WInv(w) && CanFork(w, p, f)
    ensures Enabled(w.sys, ForkStepOf(w, p, f))
  {
    hide WInv, SlotOk, SleepWakeup.Inv, ReadySet, LedgerOk;
    WInvAt(w, p);
    WInvReady(w);
    var r := Forked(w, p, f);
    var j := if f.Alloc? then f.i else if f.ForkLock? then p else w.ctl[p].i;
    ReadyGrows(w.slots, r.slots, j);
  }

  /** The invariant at process p, and of the table. */
  lemma WInvAt(w: World, p: nat)
    requires WInv(w) && (p < |w.ctl| || p < |w.slots| || p < |w.sys.th|)
    ensures Shape(w) && p < |w.slots| && CtlOk(w, p) && SlotOk(w, p) && SleepWakeup.Inv(w.sys) && w.nextPid > 0
  {
    hide CtlOk, SlotOk, LedgerOk, SleepWakeup.Inv;
  }

  lemma WInvReady(w: World)
    requires WInv(w)
    ensures Shape(w) && w.sys.ready == ReadySet(w.slots) && LedgerOk(w) && SleepWakeup.Inv(w.sys)
    ensures Alive(w.slots[INIT]) && w.slots[INIT].parent == NONE && w.nextPid > 0
  {
    hide CtlOk, SlotOk, LedgerOk, SleepWakeup.Inv, ReadySet;
  }

  lemma ExitEnabled(w: World, p: nat, e: ExitStep)
    requires WInv(w) && CanExit(w, p, e)
    ensures Enabled(w.sys, ExitStepOf(w, p, e))
  {
    hide WInv, SleepWakeup.Inv, ReadySet, LedgerOk;
    WInvAt(w, p);
    WInvReady(w);
    var r := Exited(w, p, e);
    var j := if e.GiveChild? then w.ctl[p].j else p;
    ReadyGrows(w.slots, r.slots, j);
  }

  lemma NotReady(slots: seq<Slot>, p: nat)
    requires NoZombie(slots, p, |slots|)
    ensures Ch(p) !in ReadySet(slots)
  {
  }

  lemma WaitEnabled(w: World, p: nat, x: WaitStep)
    requires WInv(w) && CanWait(w, p, x)
    ensures Enabled(w.sys, WaitStepOf(w, p, x))
  {
    hide WInv, SlotOk, SleepWakeup.Inv, ReadySet, LedgerOk;
    WInvAt(w, p);
    InvAt(w.sys, p);
    if x.SleepInWait? {
      WInvReady(w);
      NotReady(w.slots, p);
    }
    if WaitStepOf(w, p, x).Change? {
      WaitChange(w, p, x);
    }
  }

  lemma WaitChange(w: World, p: nat, x: WaitStep)
    requires WInv(w) && CanWait(w, p, x) && WaitStepOf(w, p, x).Change?
    ensures ChangeOk(w.sys, p, ReadySet(Waited(w, p, x).slots), {})
  {
    hide WInv, SlotOk, SleepWakeup.Inv, ReadySet, LedgerOk, NoChild, NoZombie;
    WInvAt(w, p);
    WInvReady(w);
    ReadyGrows(w.slots, Waited(w, p, x).slots, if x.ReapChild? then w.ctl[p].j else p);
  }

  lemma MoveEnabled(w: World, m: Move)
    requires WInv(w) && CanMove(w, m)
    ensures Enabled(w.sys, StepOf(w, m))
  {
    match m {
      case Inner(st) =>
      case InFork(p, f) => ForkEnabled(w, p, f);
      case InExit(p, e) => ExitEnabled(w, p, e);
      case InWait(p, x) => WaitEnabled(w, p, x);
    }
  }

  ghost function Next(w: World, m: Move): (r: World)
    requires WInv(w) && CanMove(w, m)
    ensures Shape(r)
  {
    MoveEnabled(w, m);
    Moved(w, m).(sys := After(w.sys, StepOf(w, m)))
  }

  lemma SameZombies(a: seq<Slot>, b: seq<Slot>)
    requires |a| == |b| && forall i :: 0 <= i < |a| ==> a[i].zombie == b[i].zombie && a[i].parent == b[i].parent
    ensures ReadySet(a) == ReadySet(b)
  {
    forall p: nat | p < |a| ensures HasZombie(a, p) == HasZombie(b, p) {
      assert forall i :: 0 <= i < |a| && a[i].zombie ==> b[i].zombie;
      assert forall i :: 0 <= i < |a| && b[i].zombie ==> a[i].zombie;
    }
  }

  lemma ReadyKept(w: World, m: Move)
    requires WInv(w) && CanMove(w, m)
    ensures Next(w, m).sys.ready == ReadySet(Next(w, m).slots)
  {
    hide WInv, After, Enabled, ReadySet;
    WInvReady(w);
    MoveEnabled(w, m);
    ReadyAfter(w.sys, StepOf(w, m));
    match m {
      case Inner(_) =>
      case InFork(p, f) => ReadyFork(w, p, f);
      case InExit(p, e) => ReadyExit(w, p, e);
      case InWait(p, x) => ReadyWait(w, p, x);
    }
  }

  /** A move that is no change of `ready` below leaves the zombies and their parents alone. */
  lemma ReadyFork(w: World, p: nat, f: ForkStep)
    requires Shape(w) && CanFork(w, p, f)
    ensures var st, r := ForkStepOf(w, p, f), ReadySet(Forked(w, p, f).slots);
            if st.Change? then st.next == r else r == ReadySet(w.slots)
  {
    hide ReadySet;
    SameZombies(w.slots, if f.StartChild? then Forked(w, p, f).slots else w.slots);
  }

  lemma ReadyExit(w: World, p: nat, e: ExitStep)
    requires Shape(w) && CanExit(w, p, e)
    ensures var st, r := ExitStepOf(w, p, e), ReadySet(Exited(w, p, e).slots);
            if st.Change? then st.next == r else r == ReadySet(w.slots)
  {
    hide ReadySet;
  }

  lemma ReadyWait(w: World, p: nat, x: WaitStep)
    requires Shape(w) && CanWait(w, p, x)
    ensures var st, r := WaitStepOf(w, p, x), ReadySet(Waited(w, p, x).slots);
            if st.Change? then st.next == r else r == ReadySet(w.slots)
  {
    hide ReadySet;
  }

  /** Moves that keep pids, statuses and ledgers. */
  lemma LedgerSame(w: World, r: World)
    requires LedgerOk(w) && |r.slots| == |w.slots| && r.nextPid == w.nextPid && r.exited == w.exited
    requires r.reaped == w.reaped
    requires forall i :: 0 <= i < |w.slots| ==>
               r.slots[i].pid == w.slots[i].pid && r.slots[i].zombie == w.slots[i].zombie &&
                     r.slots[i].xstate == w.slots[i].xstate
    ensures LedgerOk(r)
  {
  }

  lemma LedgerAlloc(w: World, r: World, i: nat, s: Slot)
    requires LedgerOk(w) && i < |w.slots| && w.slots[i].pid == 0 && s.pid == w.nextPid && !s.zombie && w.nextPid > 0
    requires r.slots == w.slots[i := s] && r.nextPid == w.nextPid + 1 && r.exited == w.exited && r.reaped == w.reaped
    ensures LedgerOk(r)
  {
    assert w.nextPid !in w.reaped;
  }

  lemma LedgerExit(w: World, r: World, i: nat, status: int)
    requires LedgerOk(w) && i < |w.slots| && w.slots[i].pid > 0 && !w.slots[i].zombie
    requires r.slots == w.slots[i := w.slots[i].(zombie := true, xstate := status)] && r.nextPid == w.nextPid
    requires r.exited == w.exited[w.slots[i].pid := status] && r.reaped == w.reaped
    ensures LedgerOk(r)
  {
    assert forall j :: 0 <= j < |w.slots| && j != i && w.slots[j].pid > 0 ==> w.slots[j].pid != w.slots[i].pid;
  }

  lemma LedgerReap(w: World, r: World, i: nat, parent: nat)
    requires LedgerOk(w) && i < |w.slots| && w.slots[i].zombie
    requires r.slots == w.slots[i := UNUSED] && r.nextPid == w.nextPid && r.exited == w.exited && w.nextPid > 0
    requires r.reaped == w.reaped[w.slots[i].pid := Reap(parent, w.slots[i].xstate)]
    ensures LedgerOk(r)
  {
    assert forall j :: 0 <= j < |w.slots| && j != i && w.slots[j].pid > 0 ==> w.slots[j].pid != w.slots[i].pid;
  }

  lemma LedgerFork(w: World, p: nat, f: ForkStep)
    requires WInv(w) && CanFork(w, p, f)
    ensures LedgerOk(Forked(w, p, f))
  {
    hide WInv, LedgerOk;
    WInvReady(w);
    var r := Forked(w, p, f);
    if f.Alloc? {
      LedgerAlloc(w, r, f.i, r.slots[f.i]);
    } else {
      LedgerSame(w, r);
    }
  }

  lemma LedgerExiting(w: World, p: nat, e: ExitStep)
    requires WInv(w) && CanExit(w, p, e)
    ensures LedgerOk(Exited(w, p, e))
  {
    hide WInv, LedgerOk, SleepWakeup.Inv;
    WInvReady(w);
    WInvAt(w, p);
    var r := Exited(w, p, e);
    if e.BecomeZombie? {
      LedgerExit(w, r, p, e.status);
    } else {
      LedgerSame(w, r);
    }
  }

  lemma LedgerWait(w: World, p: nat, x: WaitStep)
    requires WInv(w) && CanWait(w, p, x)
    ensures LedgerOk(Waited(w, p, x))
  {
    hide WInv, LedgerOk;
    WInvReady(w);
    var r := Waited(w, p, x);
    if x.ReapChild? {
      LedgerReap(w, r, w.ctl[p].j, w.slots[p].pid);
    } else {
      LedgerSame(w, r);
    }
  }

  /** What CtlOk(w, x) depends on is the same in r. */
  ghost predicate SameFor(w: World, r: World, x: nat)
    requires Shape(w) && Shape(r)
  {
    && x < |w.slots| == |r.slots| && r.ctl[x] == w.ctl[x] && Untouched(w.sys, r.sys, x)
    && (Holds(w.sys, x, WAIT) ==> forall i :: 0 <= i < |w.slots| ==>
          r.slots[i].parent == w.slots[i].parent && r.slots[i].zombie == w.slots[i].zombie)
    && (forall i :: 0 <= i < |w.slots| && w.slots[i].parent == x ==> r.slots[i].parent == x)
    && (forall i :: 0 <= i < |w.slots| && w.slots[i].maker == x ==> r.slots[i] == w.slots[i] && r.sys.th[i].pc.Dead?)
    && (w.slots[x].zombie && w.sys.th[x].pc.Exiting? ==> r.slots[x].zombie)
  }

  lemma CtlSame(w: World, r: World, x: nat)
    requires Shape(w) && Shape(r) && SameFor(w, r, x) && CtlOk(w, x)
    ensures CtlOk(r, x)
  {
    hide ReadySet;
    if Holds(w.sys, x, WAIT) {
      NoneSame(w.slots, r.slots, x);
    }
    SomeSame(w.slots, r.slots, x);
  }

  lemma SomeSame(a: seq<Slot>, b: seq<Slot>, p: nat)
    requires |a| == |b| && forall i :: 0 <= i < |a| && a[i].parent == p ==> b[i].parent == p
    ensures !NoChild(a, p, |a|) ==> !NoChild(b, p, |b|)
  {
  }

  /** NoChild and NoZombie depend on parents and zombies only. */
  lemma NoneSame(a: seq<Slot>, b: seq<Slot>, p: nat)
    requires |a| == |b| && forall i :: 0 <= i < |a| ==> b[i].parent == a[i].parent && b[i].zombie == a[i].zombie
    ensures forall j: nat {:trigger NoChild(b, p, j)} :: NoChild(a, p, j) == NoChild(b, p, j)
    ensures forall j: nat {:trigger NoZombie(b, p, j)} :: NoZombie(a, p, j) ==> NoZombie(b, p, j)
  {
  }

  /** A process inside sleep or wakeup, or idle, moves on. */
  lemma CtlInnerStep(w: World, m: Move)
    requires WInv(w) && CanMove(w, m) && m.Inner? && !m.st.SchedAcquire? && !m.st.SchedRelease?
    ensures CtlOk(Next(w, m), m.st.p)
  {
    if w.ctl[m.st.p].WokenInit? || w.ctl[m.st.p].WokenParent? {
      CtlInnerWake(w, m);
    } else {
      CtlInnerSleep(w, m);
    }
  }

  lemma CtlInnerWake(w: World, m: Move)
    requires WInv(w) && CanMove(w, m) && m.Inner? && !m.st.SchedAcquire? && !m.st.SchedRelease?
    requires w.ctl[m.st.p].WokenInit? || w.ctl[m.st.p].WokenParent?
    ensures CtlOk(Next(w, m), m.st.p)
  {
    hide WInv, SlotOk, NotLost, SleepWakeup.Inv, OwedOk, AtOk, Unquiet, Released, NoChild, NoZombie, ReadySet, Making;
    hide ThreadOk, LocksOk, InSleep, ChangeOk, AboutToSleep, HoldsNone;
    var p := m.st.p;
    WInvAt(w, p);
    var t := w.sys.th[p];
    assert m.st.WakeDone? && t.owed <= {t.pc.c} ==> t.owed - {t.pc.c} == {};
    assert m.st.WakeSelf? || m.st.WakeDone? || m.st.OtherAcquire? || m.st.OtherRelease?;
  }

  lemma CtlInnerSleep(w: World, m: Move)
    requires WInv(w) && CanMove(w, m) && m.Inner? && !m.st.SchedAcquire? && !m.st.SchedRelease?
    requires !w.ctl[m.st.p].WokenInit? && !w.ctl[m.st.p].WokenParent?
    ensures CtlOk(Next(w, m), m.st.p)
  {
    hide WInv, SlotOk, NotLost, SleepWakeup.Inv, OwedOk, AtOk, Unquiet, Released, NoChild, ReadySet, Making, InWake;
    WInvAt(w, m.st.p);
    InvAt(w.sys, m.st.p);
    NoneYet(w.slots, m.st.p);
  }

  lemma NoneYet(slots: seq<Slot>, p: nat)
    ensures NoChild(slots, p, 0) && NoZombie(slots, p, 0)
  {
  }

  /** What one more slot adds. */
  lemma OneMore(slots: seq<Slot>, p: nat, j: nat)
    requires j < |slots|
    ensures NoChild(slots, p, j + 1) <==> NoChild(slots, p, j) && slots[j].parent != p
    ensures NoZombie(slots, p, j + 1) <==> NoZombie(slots, p, j) && !(slots[j].parent == p && slots[j].zombie)
  {
  }

  lemma CtlInner(w: World, m: Move)
    requires WInv(w) && CanMove(w, m) && m.Inner?
    ensures CtlOk(Next(w, m), m.st.p)
  {
    hide LedgerOk, NotLost, Swept, Hushed, OwedOk, AtOk, Unquiet, Released, ReadySet, CtlOk;
    if m.st.SchedAcquire? || m.st.SchedRelease? {
      forall i | 0 <= i < |w.slots| && w.slots[i].maker == m.st.p ensures Next(w, m).sys.th[i].pc.Dead? {
        assert SlotOk(w, i);
      }
      CtlSame(w, Next(w, m), m.st.p);
    } else {
      CtlInnerStep(w, m);
    }
  }

  /** Slot i is what it was, and its process has not died or was never more than one that runs. */
  lemma SlotSame(w: World, r: World, i: nat)
    requires Shape(w) && Shape(r) && i < |w.slots| && r.slots == w.slots && SlotOk(w, i)
    requires (r.sys.th[i].pc == w.sys.th[i].pc && r.ctl[i] == w.ctl[i]) || (Alive(w.slots[i]) && !r.sys.th[i].pc.Dead?)
    requires w.slots[i].maker >= 0 ==> MakingCtl(r.ctl[w.slots[i].maker], i)
    ensures SlotOk(r, i)
  {
  }

  /** Slot s is a process that has been started and has not exited. */
  predicate Alive(s: Slot) { s.pid > 0 && !s.zombie && s.maker == NONE }

  /** Process p, alive, stays alive and alone is affected. */
  lemma SlotsStay(w: World, m: Move, i: nat)
    requires WInv(w) && CanMove(w, m) && !m.Inner? && !StepOf(w, m).Spawn? && !StepOf(w, m).Swtch? && i < |w.slots|
    requires Moved(w, m).slots == w.slots && Moved(w, m).ctl == w.ctl[m.p := Moved(w, m).ctl[m.p]]
    requires StepOf(w, m).p == m.p
    requires Alive(w.slots[m.p]) && !w.sys.th[m.p].pc.Dead?
    requires (MakingCtl(w.ctl[m.p], i) ==> MakingCtl(Moved(w, m).ctl[m.p], i))
    ensures SlotOk(Next(w, m), i)
  {
    hide WInv, LedgerOk, SleepWakeup.Inv, CtlOk, StepOf, Moved, CanMove, After, Enabled, ReadySet, MakingCtl;
    WInvAt(w, i);
    MoveEnabled(w, m);
    var st := StepOf(w, m);
    if i != m.p {
      OthersUntouched(w.sys, st, i);
    }
    LivesOn(w.sys, st);
    SlotSame(w, Next(w, m), i);
  }

  lemma CtlFork(w: World, p: nat, f: ForkStep)
    requires WInv(w) && CanFork(w, p, f)
    ensures CtlOk(Next(w, InFork(p, f)), p)
  {
    hide WInv, SleepWakeup.Inv, Unquiet, ReadySet, NoChild, NoZombie, AboutToSleep;
    ForkEnabled(w, p, f);
    WInvAt(w, p);
    if f.Alloc? {
      WInvAt(w, f.i);
    }
  }

  lemma SlotFork(w: World, p: nat, f: ForkStep, i: nat)
    requires WInv(w) && CanFork(w, p, f) && i < |w.slots| && !f.ForkLock? && !f.ForkUnlock?
    ensures SlotOk(Next(w, InFork(p, f)), i)
  {
    hide WInv, SleepWakeup.Inv, After, Enabled, ReadySet, LedgerOk;
    ForkEnabled(w, p, f);
    WInvAt(w, i);
    WInvAt(w, p);
    var r := Next(w, InFork(p, f));
    if f.StartChild? {
      SpawnStands(w.sys, ForkStepOf(w, p, f), i);
      SlotStarted(w, r, p, i);
    } else {
      Stands(w.sys, ForkStepOf(w, p, f), i);
      if f.Alloc? {
        WInvAt(w, f.i);
        SlotMade(w, r, p, f.i, i);
      } else {
        SlotAdopted(w, r, p, i);
      }
    }
  }

  lemma SlotMade(w: World, r: World, p: nat, j: nat, i: nat)
    requires Shape(w) && Shape(r) && CanFork(w, p, Alloc(j)) && i < |w.slots| && |r.sys.th| == |w.sys.th|
    requires SlotOk(w, i) && SlotOk(w, j) && SlotOk(w, p) && w.nextPid > 0
    requires r == Forked(w, p, Alloc(j)).(sys := r.sys) && r.sys.th[i].pc == w.sys.th[i].pc
    ensures SlotOk(r, i)
  {
  }

  lemma SlotAdopted(w: World, r: World, p: nat, i: nat)
    requires Shape(w) && Shape(r) && CanFork(w, p, Adopt) && i < |w.slots| && |r.sys.th| == |w.sys.th|
    requires SlotOk(w, i) && SlotOk(w, p) && CtlOk(w, p)
    requires r == Forked(w, p, Adopt).(sys := r.sys) && r.sys.th[i].pc == w.sys.th[i].pc
    ensures SlotOk(r, i)
  {
  }

  lemma SlotStarted(w: World, r: World, p: nat, i: nat)
    requires Shape(w) && Shape(r) && CanFork(w, p, StartChild) && i < |w.slots| && |r.sys.th| == |w.sys.th|
    requires SlotOk(w, i) && SlotOk(w, p) && CtlOk(w, p)
    requires r == Forked(w, p, StartChild).(sys := r.sys)
    requires r.sys.th[i].pc == if i == w.ctl[p].i then Newborn else w.sys.th[i].pc
    ensures SlotOk(r, i)
  {
  }

  lemma SlotForkLock(w: World, p: nat, f: ForkStep, i: nat)
    requires WInv(w) && CanFork(w, p, f) && i < |w.slots| && (f.ForkLock? || f.ForkUnlock?)
    ensures SlotOk(Next(w, InFork(p, f)), i)
  {
    hide WInv, SleepWakeup.Inv, After, Enabled, ReadySet;
    WInvAt(w, i);
    WInvAt(w, p);
    SlotsStay(w, InFork(p, f), i);
  }

  lemma CtlReparent(w: World, p: nat, e: ExitStep)
    requires WInv(w) && CanExit(w, p, e) && !Parting(w.ctl[p])
    ensures CtlOk(Next(w, InExit(p, e)), p)
  {
    hide WInv, SlotOk, SleepWakeup.Inv, Unquiet, ReadySet, NoZombie, Making, AboutToSleep, ChangeOk;
    ExitEnabled(w, p, e);
    WInvAt(w, p);
  }

  /** In kexit, past wakeup(p->parent). */
  predicate Parting(ctl: Ctl) { ctl.WokenParent? || ctl.OwnLocked? || ctl.Zombied? }

  lemma CtlParting(w: World, p: nat, e: ExitStep)
    requires WInv(w) && CanExit(w, p, e) && Parting(w.ctl[p])
    ensures CtlOk(Next(w, InExit(p, e)), p)
  {
    hide WInv, SlotOk, SleepWakeup.Inv, Unquiet, ReadySet, NoZombie, Making, AboutToSleep, ChangeOk;
    ExitEnabled(w, p, e);
    WInvAt(w, p);
  }

  /** Moves of kexit that change the table, or end it. */
  predicate Marks(e: ExitStep) { e.GiveChild? || e.BecomeZombie? || e.ExitUnlock? }

  lemma SlotMark(w: World, p: nat, e: ExitStep, i: nat)
    requires WInv(w) && CanExit(w, p, e) && i < |w.slots| && Marks(e)
    ensures SlotOk(Next(w, InExit(p, e)), i)
  {
    hide WInv, SleepWakeup.Inv, After, Enabled, ReadySet, NoChild, NoZombie;
    ExitEnabled(w, p, e);
    WInvAt(w, i);
    WInvAt(w, p);
    WInvReady(w);
    Stands(w.sys, ExitStepOf(w, p, e), i);
    SlotMarkAt(w, Next(w, InExit(p, e)), p, e, i);
  }

  lemma SlotMarkAt(w: World, r: World, p: nat, e: ExitStep, i: nat)
    requires Shape(w) && Shape(r) && CanExit(w, p, e) && Marks(e) && i < |w.slots| && |r.sys.th| == |w.sys.th|
    requires SlotOk(w, i) && SlotOk(w, p) && CtlOk(w, p) && Alive(w.slots[INIT]) && w.slots[INIT].parent == NONE
    requires r == Exited(w, p, e).(sys := r.sys) && r.sys.th[i].pc == w.sys.th[i].pc
    ensures SlotOk(r, i)
  {
    hide ReadySet, NoZombie;
  }

  lemma SlotExit(w: World, p: nat, e: ExitStep, i: nat)
    requires WInv(w) && CanExit(w, p, e) && i < |w.slots| && !Marks(e)
    ensures SlotOk(Next(w, InExit(p, e)), i)
  {
    hide WInv, SleepWakeup.Inv, After, Enabled, ReadySet;
    WInvAt(w, i);
    WInvAt(w, p);
    SlotsStay(w, InExit(p, e), i);
  }

  lemma CtlWaitScan(w: World, p: nat, x: WaitStep)
    requires WInv(w) && CanWait(w, p, x) && !w.ctl[p].Looking? && !w.ctl[p].Reaped?
    ensures CtlOk(Next(w, InWait(p, x)), p)
  {
    if x.SkipSlot? || x.GiveUp? || x.StayOn? {
      CtlWaitSkip(w, p, x);
    } else {
      CtlWaitTurn(w, p, x);
    }
  }

  lemma CtlWaitSkip(w: World, p: nat, x: WaitStep)
    requires WInv(w) && CanWait(w, p, x) && (x.SkipSlot? || x.GiveUp? || x.StayOn?)
    ensures CtlOk(Next(w, InWait(p, x)), p)
  {
    hide WInv, SlotOk, SleepWakeup.Inv, After, Enabled, ReadySet, NoChild, NoZombie, Making;
    WaitEnabled(w, p, x);
    WInvAt(w, p);
    ChangeOnly(w.sys, p, WaitStepOf(w, p, x).next);
    if x.SkipSlot? {
      OneMore(w.slots, p, w.ctl[p].j);
    }
  }

  lemma CtlWaitTurn(w: World, p: nat, x: WaitStep)
    requires WInv(w) && CanWait(w, p, x) && !w.ctl[p].Looking? && !w.ctl[p].Reaped? && !x.SkipSlot? && !x.GiveUp?
    requires !x.StayOn?
    ensures CtlOk(Next(w, InWait(p, x)), p)
  {
    hide WInv, SlotOk, SleepWakeup.Inv, Unquiet, ReadySet, ChangeOk, Released, NoChild, NoZombie, Making, AboutToSleep;
    WaitEnabled(w, p, x);
    WInvAt(w, p);
    NoneYet(w.slots, p);
  }

  lemma CtlWaitChild(w: World, p: nat, x: WaitStep)
    requires WInv(w) && CanWait(w, p, x) && (w.ctl[p].Looking? || w.ctl[p].Reaped?)
    ensures CtlOk(Next(w, InWait(p, x)), p)
  {
    if x.ReapChild? {
      CtlWaitReap(w, p, x);
    } else {
      CtlWaitBack(w, p, x);
    }
  }

  lemma CtlWaitReap(w: World, p: nat, x: WaitStep)
    requires WInv(w) && CanWait(w, p, x) && x.ReapChild?
    ensures CtlOk(Next(w, InWait(p, x)), p)
  {
    hide WInv, SlotOk, SleepWakeup.Inv, After, Enabled, ReadySet, NoChild, NoZombie, Making;
    WaitEnabled(w, p, x);
    WInvAt(w, p);
    ChangeOnly(w.sys, p, WaitStepOf(w, p, x).next);
  }

  lemma CtlWaitBack(w: World, p: nat, x: WaitStep)
    requires WInv(w) && CanWait(w, p, x) && !x.ReapChild? && (w.ctl[p].Looking? || w.ctl[p].Reaped?)
    ensures CtlOk(Next(w, InWait(p, x)), p)
  {
    hide WInv, SlotOk, SleepWakeup.Inv, After, Enabled, ReadySet, NoChild, NoZombie, Making, InSleep, InWake;
    hide CanFork, CanExit, Forked, Exited, ForkStepOf, ExitStepOf, HoldsNone, LedgerOk;
    WaitEnabled(w, p, x);
    WInvAt(w, p);
    LetsGo(w.sys, p);
    if x.ChildAlive? {
      OneMore(w.slots, p, w.ctl[p].j);
    }
  }

  /** kwait lets go of the lock of the child it has looked at, and holds what else it held. */
  lemma LetsGo(s: State, p: nat)
    requires Enabled(s, OtherRelease(p)) && s.th[p].pc.why.Look?
    ensures var r := After(s, OtherRelease(p));
            && r.lock == s.lock && r.th[p].pc.Out? && r.th[p].owed == s.th[p].owed && r.th[p].quiet == s.th[p].quiet
  {
  }

  /** A child is reaped only by its parent, and only once it is off its kernel stack: its p->lock has passed
      to the scheduler. */
  lemma ReapedIsDead(w: World, p: nat)
    requires WInv(w) && CanWait(w, p, ReapChild)
    ensures var j := w.ctl[p].j; w.sys.th[j].pc.Dead? && w.ctl[j].Idle? && w.slots[j].parent == p
  {
    hide WInv, SleepWakeup.Inv, NotLost, OwedOk, LocksOk;
    var j := w.ctl[p].j;
    WInvAt(w, p);
    WInvAt(w, j);
    InvAt(w.sys, p);
    InvAt(w.sys, j);
  }

  lemma SlotReap(w: World, p: nat, i: nat)
    requires WInv(w) && CanWait(w, p, ReapChild) && i < |w.slots|
    ensures SlotOk(Next(w, InWait(p, ReapChild)), i)
  {
    hide WInv, SleepWakeup.Inv, After, Enabled, ReadySet, NoChild, NoZombie;
    WaitEnabled(w, p, ReapChild);
    ReapedIsDead(w, p);
    WInvAt(w, p);
    WInvAt(w, i);
    WInvAt(w, w.ctl[p].j);
    Stands(w.sys, WaitStepOf(w, p, ReapChild), i);
  }

  lemma SlotWait(w: World, p: nat, x: WaitStep, i: nat)
    requires WInv(w) && CanWait(w, p, x) && i < |w.slots| && !x.ReapChild?
    ensures SlotOk(Next(w, InWait(p, x)), i)
  {
    hide WInv, SleepWakeup.Inv, After, Enabled, ReadySet;
    WInvAt(w, i);
    WInvAt(w, p);
    SlotsStay(w, InWait(p, x), i);
  }

  lemma SlotInner(w: World, m: Move, i: nat)
    requires WInv(w) && CanMove(w, m) && m.Inner? && i < |w.slots|
    ensures SlotOk(Next(w, m), i)
  {
    hide WInv, SleepWakeup.Inv, After, Enabled, ReadySet, CtlOk, MakingCtl;
    WInvAt(w, i);
    if i == m.st.p {
      SlotInnerOwn(w, m);
    } else {
      OthersUntouched(w.sys, m.st, i);
      SlotSame(w, Next(w, m), i);
    }
  }

  lemma SlotInnerOwn(w: World, m: Move)
    requires WInv(w) && CanMove(w, m) && m.Inner? && m.st.p < |w.slots|
    ensures SlotOk(Next(w, m), m.st.p)
  {
    hide WInv, SleepWakeup.Inv, NotLost, OwedOk, LocksOk, Unquiet, AboutToSleep, ReadySet, ChangeOk, NoChild, NoZombie;
    WInvAt(w, m.st.p);
    InvAt(w.sys, m.st.p);
  }

  /** What another process relies on in the table does not change under it. */
  ghost predicate SlotsSame(w: World, r: World, x: nat)
    requires Shape(w) && Shape(r)
  {
    && x < |w.slots| == |r.slots| && r.ctl[x] == w.ctl[x]
    && (Holds(w.sys, x, WAIT) ==> forall i :: 0 <= i < |w.slots| ==>
          r.slots[i].parent == w.slots[i].parent && r.slots[i].zombie == w.slots[i].zombie)
    && (forall i :: 0 <= i < |w.slots| && w.slots[i].parent == x ==> r.slots[i].parent == x)
    && (forall i :: 0 <= i < |w.slots| && w.slots[i].maker == x ==> r.slots[i] == w.slots[i])
    && (w.slots[x].zombie && w.sys.th[x].pc.Exiting? ==> r.slots[x].zombie)
  }

  lemma SlotsSameFork(w: World, p: nat, f: ForkStep, y: nat)
    requires WInv(w) && CanFork(w, p, f) && y < |w.ctl| && y != p
    ensures SlotsSame(w, Forked(w, p, f), y)
  {
    hide WInv, SleepWakeup.Inv, NoChild, NoZombie;
    WInvAt(w, p);
    WInvAt(w, y);
    if f.Alloc? {
      WInvAt(w, f.i);
    }
  }

  lemma SlotsSameExit(w: World, p: nat, e: ExitStep, y: nat)
    requires WInv(w) && CanExit(w, p, e) && y < |w.ctl| && y != p
    ensures SlotsSame(w, Exited(w, p, e), y)
  {
    hide WInv, SleepWakeup.Inv, NoChild, NoZombie;
    WInvAt(w, p);
    if e.GiveChild? {
      WInvAt(w, w.ctl[p].j);
    }
  }

  lemma SlotsSameWait(w: World, p: nat, x: WaitStep, y: nat)
    requires WInv(w) && CanWait(w, p, x) && y < |w.ctl| && y != p
    ensures SlotsSame(w, Waited(w, p, x), y)
  {
    hide WInv, SleepWakeup.Inv, NoChild, NoZombie, Peeking;
    WInvAt(w, p);
    if x.ReapChild? {
      ReapedIsDead(w, p);
      ReapPlace(w, p);
      WInvAt(w, w.ctl[p].j);
    }
  }

  lemma ReapPlace(w: World, p: nat)
    requires WInv(w) && CanWait(w, p, ReapChild)
    ensures w.ctl[p].Looking? && w.ctl[p].j < |w.slots|
  {
    hide WInv;
  }

  lemma MakersDead(w: World, m: Move, y: nat)
    requires WInv(w) && CanMove(w, m) && y != StepOf(w, m).p
    ensures forall i :: 0 <= i < |w.slots| && w.slots[i].maker == y ==> Next(w, m).sys.th[i].pc.Dead?
  {
    hide WInv, SleepWakeup.Inv, After, Enabled, CtlOk, ReadySet, LedgerOk;
    WInvReady(w);
    MoveEnabled(w, m);
    var st := StepOf(w, m);
    forall i | 0 <= i < |w.slots| && w.slots[i].maker == y ensures Next(w, m).sys.th[i].pc.Dead? {
      WInvAt(w, i);
      SpawnsOwn(w, m);
      DeadStays(w.sys, st, i);
    }
  }

  /** kfork starts only the process it has made itself. */
  lemma SpawnsOwn(w: World, m: Move)
    requires WInv(w) && CanMove(w, m)
    ensures var st := StepOf(w, m); st.Spawn? ==> st.i < |w.slots| && w.slots[st.i].maker == st.p
  {
    hide WInv, SlotOk, SleepWakeup.Inv, ReadySet, NoChild, NoZombie;
    if m.InFork? {
      WInvAt(w, m.p);
    }
  }

  lemma CtlOther(w: World, m: Move, y: nat)
    requires WInv(w) && CanMove(w, m) && y < |w.ctl| && y != StepOf(w, m).p
    ensures CtlOk(Next(w, m), y)
  {
    hide WInv, SleepWakeup.Inv, SlotOk, After, Enabled, CtlOk, StepOf, ReadySet;
    WInvAt(w, y);
    MoveEnabled(w, m);
    OthersUntouched(w.sys, StepOf(w, m), y);
    SlotsKept(w, m, y);
    MakersDead(w, m, y);
    CtlSame(w, Next(w, m), y);
  }

  lemma SlotsKept(w: World, m: Move, y: nat)
    requires WInv(w) && CanMove(w, m) && y < |w.ctl| && y != StepOf(w, m).p
    ensures SlotsSame(w, Moved(w, m), y)
  {
    hide WInv, SleepWakeup.Inv, ReadySet, SlotsSame, Forked, Exited, Waited, CanFork, CanExit, CanWait, LedgerOk;
    WInvReady(w);
    match m {
      case Inner(_) => SlotsSameSelf(w, Moved(w, m), y);
      case InFork(p, f) => StepPlace(w, m); SlotsSameFork(w, p, f, y);
      case InExit(p, e) => StepPlace(w, m); SlotsSameExit(w, p, e, y);
      case InWait(p, x) => StepPlace(w, m); SlotsSameWait(w, p, x, y);
    }
  }

  lemma SlotsSameSelf(w: World, r: World, y: nat)
    requires Shape(w) && Shape(r) && y < |w.slots| && r.slots == w.slots && r.ctl == w.ctl
    ensures SlotsSame(w, r, y)
  {
  }

  /** The process that moves is the one that takes the step below. */
  lemma StepPlace(w: World, m: Move)
    requires Shape(w) && CanMove(w, m) && !m.Inner?
    ensures StepOf(w, m).p == m.p
  {
    hide ReadySet;
  }

  lemma CtlKept(w: World, m: Move, y: nat)
    requires WInv(w) && CanMove(w, m) && y < |w.ctl|
    ensures CtlOk(Next(w, m), y)
  {
    hide WInv, SleepWakeup.Inv, After, Enabled, CtlOk, SlotOk, ReadySet, LedgerOk;
    WInvReady(w);
    if y != StepOf(w, m).p {
      CtlOther(w, m, y);
      return;
    }
    match m {
      case Inner(_) => CtlInner(w, m);
      case InFork(p, f) => CtlFork(w, p, f);
      case InExit(p, e) =>
        if Parting(w.ctl[p]) { CtlParting(w, p, e); } else { CtlReparent(w, p, e); }
      case InWait(p, x) =>
        if w.ctl[p].Looking? || w.ctl[p].Reaped? { CtlWaitChild(w, p, x); } else { CtlWaitScan(w, p, x); }
    }
  }

  lemma SlotKept(w: World, m: Move, i: nat)
    requires WInv(w) && CanMove(w, m) && i < |w.slots|
    ensures SlotOk(Next(w, m), i)
  {
    match m {
      case Inner(_) => SlotInner(w, m, i);
      case InFork(p, f) =>
        if f.ForkLock? || f.ForkUnlock? { SlotForkLock(w, p, f, i); } else { SlotFork(w, p, f, i); }
      case InExit(p, e) =>
        if Marks(e) { SlotMark(w, p, e, i); } else { SlotExit(w, p, e, i); }
      case InWait(p, x) =>
        if x.ReapChild? { SlotReap(w, p, i); } else { SlotWait(w, p, x, i); }
    }
  }

  lemma LedgerKept(w: World, m: Move)
    requires WInv(w) && CanMove(w, m)
    ensures LedgerOk(Next(w, m))
  {
    match m {
      case Inner(_) =>
      case InFork(p, f) => LedgerFork(w, p, f);
      case InExit(p, e) => LedgerExiting(w, p, e);
      case InWait(p, x) => LedgerWait(w, p, x);
    }
    hide SleepWakeup.Inv, CtlOk, SlotOk, After, Enabled, StepOf, Forked, Exited, Waited, CanFork, CanExit, CanWait;
    LedgerSame(Moved(w, m), Next(w, m));
  }

  lemma InitKept(w: World, m: Move)
    requires WInv(w) && CanMove(w, m)
    ensures var r := Next(w, m); Alive(r.slots[INIT]) && r.slots[INIT].parent == NONE && r.nextPid > 0
  {
    hide WInv, SleepWakeup.Inv, LedgerOk, After, Enabled, StepOf, ReadySet, NoChild, NoZombie;
    WInvReady(w);
    WInvAt(w, INIT);
    if !m.Inner? {
      MovePlace(w, m);
      WInvAt(w, m.p);
    }
  }

  lemma MovePlace(w: World, m: Move)
    requires Shape(w) && CanMove(w, m) && !m.Inner?
    ensures m.p < |w.ctl|
  {
  }

  /** Every move of every process keeps the invariant. */
  lemma NextInv(w: World, m: Move)
    requires WInv(w) && CanMove(w, m)
    ensures WInv(Next(w, m))
  {
    hide WInv, SleepWakeup.Inv, LedgerOk, CtlOk, SlotOk, After, Enabled, StepOf, Forked, Exited, Waited, CanMove;
    var r := Next(w, m);
    WInvReady(w);
    MoveEnabled(w, m);
    StepInv(w.sys, StepOf(w, m));
    ReadyKept(w, m);
    LedgerKept(w, m);
    InitKept(w, m);
    forall p | 0 <= p < |r.ctl| ensures CtlOk(r, p) {
      CtlKept(w, m, p);
    }
    forall i | 0 <= i < |r.slots| ensures SlotOk(r, i) {
      SlotKept(w, m, i);
    }
    WInvAll(r);
  }

  lemma WInvAll(w: World)
    requires Shape(w) && SleepWakeup.Inv(w.sys) && w.sys.ready == ReadySet(w.slots) && LedgerOk(w) && w.nextPid > 0
    requires forall p :: 0 <= p < |w.ctl| ==> CtlOk(w, p)
    requires forall i :: 0 <= i < |w.slots| ==> SlotOk(w, i)
    requires Alive(w.slots[INIT]) && w.slots[INIT].parent == NONE
    ensures WInv(w)
  {
    hide SleepWakeup.Inv, LedgerOk, CtlOk, SlotOk, ReadySet;
  }

  // ----- whole runs

  /** A world reached from `w` by the moves `run`. */
  ghost predicate Reached(w: World, run: seq<Move>, r: World)
    decreases |run|
  {
    if run == [] then r == w
    else WInv(w) && CanMove(w, run[0]) && Reached(Next(w, run[0]), run[1..], r)
  }

  /** Only init runs. */
  ghost predicate Begin(w: World)
  {
    && Shape(w) && Start(w.sys) && w.sys.ready == {} && w.nextPid == 2 && w.exited == map[] && w.reaped == map[]
    && w.slots[INIT] == Slot(1, NONE, false, 0, NONE)
    && (forall i :: 0 < i < |w.slots| ==> w.slots[i] == UNUSED)
    && (forall p :: 0 <= p < |w.ctl| ==> w.ctl[p].Idle?)
  }

  lemma BeginInv(w: World)
    requires Begin(w)
    ensures WInv(w)
  {
    StartInv(w.sys);
    hide SleepWakeup.Inv;
    forall p | 0 <= p < |w.ctl| ensures CtlOk(w, p) && SlotOk(w, p) {
    }
  }

  lemma {:induction false} ReachedInv(w: World, run: seq<Move>, r: World)
    requires WInv(w) && Reached(w, run, r)
    ensures WInv(r)
    decreases |run|
  {
    if run != [] {
      NextInv(w, run[0]);
      ReachedInv(Next(w, run[0]), run[1..], r);
    }
  }

  /** Over every run: while wait_lock is free, no process sleeps in kwait although it has a zombie child,
      whether born to it or passed to it by reparent. */
  lemma NoSleepBesideZombie(w: World, run: seq<Move>, r: World, p: nat, i: nat)
    requires Begin(w) && Reached(w, run, r) && p < |r.slots| && i < |r.slots|
    ensures |r.sys.th| == |r.slots|
    ensures WAIT !in r.sys.lock && r.slots[i].zombie && r.slots[i].parent == p ==>
              !(r.sys.th[p].run.Sleeping? && r.sys.th[p].chan == Ch(p))
  {
    hide Begin, Reached, WInv, SleepWakeup.Inv, LedgerOk, LocksOk, OwedOk, AtOk;
    BeginInv(w);
    ReachedInv(w, run, r);
    WInvReady(r);
    InvAt(r.sys, p);
    assert r.slots[i].zombie && r.slots[i].parent == p ==> HasZombie(r.slots, p) && Ch(p) in ReadySet(r.slots);
  }

  /** Over every run, at the end of a scan of kwait: it gives up exactly if the process has no child or has been
      killed, and otherwise, when there is a child and it lives, goes on to sleep. */
  lemma GivesUpExactly(w: World, run: seq<Move>, r: World, p: nat)
    requires Begin(w) && Reached(w, run, r) && Shape(r) && Here(r, p)
    requires r.ctl[p].Scan? && r.ctl[p].j == |r.slots|
    ensures CanWait(r, p, GiveUp) <==> p in r.killed || forall i :: 0 <= i < |r.slots| ==> r.slots[i].parent != p
    ensures CanWait(r, p, StayOn) <==>
              p !in r.killed && exists i :: 0 <= i < |r.slots| && r.slots[i].parent == p && !r.slots[i].zombie
  {
    hide Begin, Reached, WInv, SleepWakeup.Inv, SlotOk;
    BeginInv(w);
    ReachedInv(w, run, r);
    WInvAt(r, p);
    if !NoChild(r.slots, p, |r.slots|) {
      var i :| 0 <= i < |r.slots| && r.slots[i].parent == p;
      assert !r.slots[i].zombie;
    }
  }

  /** Over every run: a process that sleeps in kwait, or is about to, has a child to wait for. */
  lemma NoSleepWithoutChild(w: World, run: seq<Move>, r: World, p: nat)
    requires Begin(w) && Reached(w, run, r) && p < |r.slots| && Shape(r)
    ensures r.ctl[p].Scan? && InSleep(r.sys.th[p].pc) ==> exists i :: 0 <= i < |r.slots| && r.slots[i].parent == p
    ensures r.ctl[p].Staying? ==>
              && CanWait(r, p, SleepInWait)
              && exists i :: 0 <= i < |r.slots| && r.slots[i].parent == p && !r.slots[i].zombie
  {
    hide Begin, Reached, WInv, SleepWakeup.Inv, SlotOk;
    BeginInv(w);
    ReachedInv(w, run, r);
    WInvAt(r, p);
    if r.ctl[p].Staying? {
      var i :| 0 <= i < |r.slots| && r.slots[i].parent == p;
      assert !r.slots[i].zombie;
    }
  }

  /** Only kexit of a process makes it a zombie, and the status it is given is the one recorded. */
  lemma ExitStepRecords(w: World, m: Move, d: nat)
    requires WInv(w) && CanMove(w, m) && d in Next(w, m).exited && d !in w.exited
    ensures m.InExit? && m.e.BecomeZombie? && w.slots[m.p].pid == d && Next(w, m).exited[d] == m.e.status
    ensures var s := Next(w, m).slots[m.p]; s.zombie && s.xstate == m.e.status && s.pid == d
  {
    hide SleepWakeup.Inv, After, Enabled, StepOf, SlotOk, CtlOk;
  }

  /** What kexit does in every state: after its last step the process is a zombie with the status it was given, and
      none of its children is left to it. */
  lemma ExitEnds(w: World, p: nat, status: int)
    requires WInv(w) && CanExit(w, p, BecomeZombie(status))
    ensures var r := Exited(w, p, BecomeZombie(status));
            && r.slots[p] == w.slots[p].(zombie := true, xstate := status) && w.slots[p].pid > 0 && !w.slots[p].zombie
            && (forall i :: 0 <= i < |r.slots| ==> r.slots[i].parent != p)
            && 0 <= r.slots[p].parent < |r.slots| && Alive(r.slots[r.slots[p].parent])
  {
    hide WInv, SleepWakeup.Inv;
    WInvAt(w, p);
  }

  /** kfork's last step: the child is a process of its own that can run, a child of the caller, with a pid nobody has
      or had. */
  lemma ForkEnds(w: World, p: nat)
    requires WInv(w) && CanFork(w, p, StartChild)
    ensures var r, i := Next(w, InFork(p, StartChild)), w.ctl[p].i;
            && i < |r.slots| && Alive(r.slots[i]) && r.slots[i].parent == p && r.ctl[p].Idle?
            && r.sys.th[i].pc.Newborn? && r.sys.th[i].run.Runnable?
            && r.slots[i].pid !in r.exited && r.slots[i].pid !in r.reaped
            && forall j :: 0 <= j < |r.slots| && j != i ==> r.slots[j].pid != r.slots[i].pid
  {
    hide SleepWakeup.Inv, SlotOk;
    ForkEnabled(w, p, StartChild);
    assert CtlOk(w, p);
  }

  /** Over every run: a zombie has a parent that is alive and can reap it, what has been reaped had exited
      with that status, and a process that is still in the table has not been reaped: so no pid is reaped
      twice. */
  lemma ReapedOnce(w: World, run: seq<Move>, r: World, i: nat, d: nat)
    requires Begin(w) && Reached(w, run, r) && i < |r.slots|
    ensures r.slots[i].zombie ==> 0 <= r.slots[i].parent < |r.slots| && Alive(r.slots[r.slots[i].parent])
    ensures d in r.reaped ==> d in r.exited && r.reaped[d].status == r.exited[d]
    ensures r.slots[i].pid > 0 ==> r.slots[i].pid !in r.reaped
  {
    BeginInv(w);
    ReachedInv(w, run, r);
    hide Begin, Reached, CtlOk, SleepWakeup.Inv;
    assert SlotOk(r, i);
  }

  /** Once recorded, an exit status and a reaping stay as they are. */
  lemma {:induction false} LedgerGrows(w: World, run: seq<Move>, r: World, d: nat)
    requires WInv(w) && Reached(w, run, r)
    ensures d in w.exited ==> d in r.exited && r.exited[d] == w.exited[d]
    ensures d in w.reaped ==> d in r.reaped && r.reaped[d] == w.reaped[d]
    decreases |run|
  {
    if run != [] {
      LedgerStep(w, run[0], d);
      NextInv(w, run[0]);
      LedgerGrows(Next(w, run[0]), run[1..], r, d);
    }
  }

  lemma LedgerStep(w: World, m: Move, d: nat)
    requires WInv(w) && CanMove(w, m)
    ensures d in w.exited ==> d in Next(w, m).exited && Next(w, m).exited[d] == w.exited[d]
    ensures d in w.reaped ==> d in Next(w, m).reaped && Next(w, m).reaped[d] == w.reaped[d]
  {
    hide SleepWakeup.Inv, After, Enabled, StepOf, CtlOk, SlotOk;
    if m.InExit? {
      LedgerExited(w, m.p, m.e, d);
    }
  }

  lemma LedgerExited(w: World, p: nat, e: ExitStep, d: nat)
    requires WInv(w) && CanExit(w, p, e)
    ensures d in w.exited ==> d in Exited(w, p, e).exited && Exited(w, p, e).exited[d] == w.exited[d]
  {
    hide SleepWakeup.Inv;
    assert CtlOk(w, p) && SlotOk(w, p);
  }

  /** Only kwait of a zombie's current parent reaps it, and it is given the status of the exit. */
  lemma ReapStep(w: World, m: Move, d: nat)
    requires WInv(w) && CanMove(w, m) && d in Next(w, m).reaped && d !in w.reaped
    ensures m.InWait? && m.x.ReapChild? && d in w.exited && Next(w, m).reaped[d] == Reap(w.slots[m.p].pid, w.exited[d])
    ensures var j := w.ctl[m.p].j; w.slots[j].pid == d && w.slots[j].zombie && w.slots[j].parent == m.p
  {
    hide WInv, SleepWakeup.Inv, After, Enabled, StepOf, SlotOk, NoChild, NoZombie, Making, ReadySet;
    WInvReady(w);
    if !m.Inner? {
      MovePlace(w, m);
      WInvAt(w, m.p);
    }
  }
}
