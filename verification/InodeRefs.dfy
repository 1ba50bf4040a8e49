/** The references and links of one inode of kernel/fs.c: iget, idup, ilock, iunlock and iput, by any number of
    processes, one step for each region under itable.lock or change of the inode's sleep lock.  iput takes the sleep
    lock while it holds itable.lock, and so must not have to sleep for it; it frees an inode that nothing refers to
    any more, neither a process nor a directory. */
module InodeRefs {
  datatype Pc =
    | Out
    | Getting      // in iget or idup, itable.lock held
    | Putting      // in iput, itable.lock held, before ref is looked at
    | LastRef      // ref is 1 and the inode unlinked: before acquiresleep, itable.lock held
    | Truncating   // the sleep lock held, itable.lock released
    | Relocking    // sleep lock released, before itable.lock is taken again
    | Dropping     // itable.lock held, before ref is decremented

  /** `ref` is ip->ref; `held` counts the references each process has (an index may also stand for an open file,
      which is given a reference by open and gives it to the process that closes it last); `table` holds
      itable.lock and `holder` the inode's sleep lock, -1 being nobody.  `valid` is ip->valid, `links` the nlink of the
      inode, and `inUse` says that its type is not 0. */
  datatype State = State(ref: int, held: seq<nat>, table: int, holder: int, pc: seq<Pc>, valid: bool, links: nat,
                         inUse: bool)

  datatype Step =
    | Get(p: nat) | GotRef(p: nat) | Lock(p: nat) | SetLinks(p: nat, n: nat) | Unlock(p: nat)
    | Put(p: nat) | Look(p: nat) | AcquireSleep(p: nat)
    | Truncated(p: nat) | Relock(p: nat) | Drop(p: nat)
    | Give(p: nat, q: nat)

  ghost predicate Enabled(s: State, st: Step)
  {
    && |s.pc| == |s.held| && st.p < |s.pc|
    && var c := s.pc[st.p];
       match st
       // iget finds the inode in a directory, idup has a reference already
       case Get(p) => c.Out? && s.table == -1 && (s.links > 0 || s.held[p] > 0)
       case GotRef(_) => c.Getting?
       // ilock panics if it reads an inode of type 0
       case Lock(p) => c.Out? && s.held[p] > 0 && s.holder == -1 && (s.valid || s.inUse)
       // link and unlink change nlink under the sleep lock
       case SetLinks(p, _) => c.Out? && s.holder == p
       case Unlock(p) => c.Out? && s.holder == p
       // the reference given up is not the one under which the process has the inode locked
       case Put(p) => c.Out? && s.held[p] > (if s.holder == p then 1 else 0) && s.table == -1
       case Look(_) => c.Putting?
       case AcquireSleep(_) => c.LastRef? && s.holder == -1
       case Truncated(_) => c.Truncating?
       case Relock(_) => c.Relocking? && s.table == -1
       case Drop(_) => c.Dropping?
       // kfork takes a reference to the current directory and the child drops it; open files are shared
       case Give(p, q) => c.Out? && s.held[p] > (if s.holder == p then 1 else 0) && q < |s.pc|
  }

  /** One of p's references is q's. */
  function Moved(held: seq<nat>, p: nat, q: nat): (r: seq<nat>)
    requires p < |held| && q < |held| && held[p] > 0
    ensures |r| == |held|
  {
    var h := held[p := held[p] - 1];
    h[q := h[q] + 1]
  }

  function After(s: State, st: Step): (r: State)
    requires |s.pc| == |s.held| && st.p < |s.pc|
  {
    var p := st.p;
    match st
    case Get(_) => s.(table := p, pc := s.pc[p := Getting])
    // iget of an inode that nobody refers to recycles a table entry
    case GotRef(_) =>
      s.(ref := s.ref + 1, held := s.held[p := s.held[p] + 1], table := -1, pc := s.pc[p := Out],
         valid := s.valid && s.ref > 0)
    case Lock(_) => s.(holder := p, valid := true)
    case SetLinks(_, n) => s.(links := n)
    case Unlock(_) => s.(holder := -1)
    case Put(_) => s.(table := p, pc := s.pc[p := Putting])
    case Look(_) => s.(pc := s.pc[p := if s.ref == 1 && s.valid && s.links == 0 then LastRef else Dropping])
    case AcquireSleep(_) => s.(holder := p, table := -1, pc := s.pc[p := Truncating])
    // itrunc, type = 0, iupdate, valid = 0, releasesleep
    case Truncated(_) => s.(holder := -1, pc := s.pc[p := Relocking], inUse := false, valid := false)
    case Relock(_) => s.(table := p, pc := s.pc[p := Dropping])
    case Drop(_) =>
      s.(ref := s.ref - 1, held := s.held[p := if s.held[p] > 0 then s.held[p] - 1 else 0],
         table := -1, pc := s.pc[p := Out])
    case Give(_, q) =>
      if q < |s.held| && s.held[p] > 0 then s.(held := Moved(s.held, p, q)) else s
  }

  function Sum(a: seq<nat>): (n: nat) { if a == [] then 0 else a[0] + Sum(a[1..]) }

  lemma {:induction false} SumUpdate(a: seq<nat>, i: nat, x: nat)
    requires i < |a|
    ensures Sum(a[i := x]) == Sum(a) - a[i] + x
  {
    if i > 0 {
      assert a[i := x][1..] == a[1..][i - 1 := x];
      SumUpdate(a[1..], i - 1, x);
    } else {
      assert a[i := x][1..] == a[1..];
    }
  }

  lemma {:induction false} SumAtLeast(a: seq<nat>, i: nat)
    requires i < |a|
    ensures Sum(a) >= a[i]
  {
    if i > 0 {
      SumAtLeast(a[1..], i - 1);
    }
  }

  lemma TwoHeld(a: seq<nat>, i: nat, j: nat)
    requires i < |a| && j < |a| && i != j
    ensures Sum(a) >= a[i] + a[j]
  {
    SumUpdate(a, i, 0);
    SumAtLeast(a[i := 0], j);
  }

  predicate InTable(c: Pc) { c.Getting? || c.Putting? || c.LastRef? || c.Dropping? }

  /** What process p's place in these functions says. */
  ghost predicate PcOk(s: State, p: nat)
    requires p < |s.pc| == |s.held|
  {
    var c := s.pc[p];
    && (InTable(c) <==> s.table == p)
    && (c.Putting? || c.LastRef? || c.Truncating? || c.Relocking? || c.Dropping? ==> s.held[p] > 0)
    && (c.LastRef? ==> s.ref == 1) && (c.Truncating? ==> s.holder == p)
    && (s.holder == p ==> s.held[p] > (if c.Putting? || c.LastRef? || c.Dropping? then 1 else 0))
    && (s.holder == p ==> !c.Relocking? && s.valid)
    && (c.LastRef? || c.Truncating? ==> s.valid && s.links == 0 && s.ref == 1)
    && (c.Truncating? && 0 <= s.table < |s.pc| ==> !s.pc[s.table].Getting?)
    && (c.Dropping? && s.ref == 1 && s.inUse ==> s.links > 0) && (c.Relocking? ==> !s.inUse)
    && (!s.inUse && s.held[p] > 0 ==> s.ref == 1 && (c.Relocking? || c.Dropping?)) && (c.Getting? ==> s.inUse)
  }

  /** A directory or a process refers to the inode while it is in use; it is freed only when neither does. */
  ghost predicate UseOk(s: State)
  {
    && (s.inUse && s.links == 0 ==> s.ref > 0 && s.valid)
    && (!s.inUse ==> s.links == 0 && !s.valid)
  }

  ghost predicate Inv(s: State)
  {
    && |s.pc| == |s.held| && s.ref == Sum(s.held) && -1 <= s.table < |s.pc| && -1 <= s.holder < |s.pc|
    && UseOk(s) && forall p :: 0 <= p < |s.pc| ==> PcOk(s, p)
  }

  lemma PcKept(s: State, st: Step, x: nat)
    requires Inv(s) && Enabled(s, st) && x < |s.pc|
    ensures PcOk(After(s, st), x)
  {
    hide Sum, UseOk;
    assert PcOk(s, x) && PcOk(s, st.p);
    UseOf(s);
    RefAtLeast(s, x, st.p);
  }

  lemma UseOf(s: State)
    requires Inv(s)
    ensures s.inUse && s.links == 0 ==> s.ref > 0 && s.valid
    ensures !s.inUse ==> s.links == 0 && !s.valid
  {
  }

  /** The references of two processes count. */
  lemma RefAtLeast(s: State, x: nat, p: nat)
    requires Inv(s) && x < |s.pc| && p < |s.pc|
    ensures s.ref >= s.held[x] && s.ref >= s.held[p] && (x != p ==> s.ref >= s.held[x] + s.held[p])
    ensures 0 <= s.holder ==> s.held[s.holder] > 0 && s.ref >= s.held[s.holder]
    ensures 0 <= s.holder != x ==> s.ref >= s.held[x] + s.held[s.holder]
  {
    SumAtLeast(s.held, x);
    SumAtLeast(s.held, p);
    if x != p {
      TwoHeld(s.held, x, p);
    }
    if 0 <= s.holder {
      assert PcOk(s, s.holder);
      SumAtLeast(s.held, s.holder);
      if s.holder != x {
        TwoHeld(s.held, x, s.holder);
      }
    }
  }

  lemma StepInv(s: State, st: Step)
    requires Inv(s) && Enabled(s, st)
    ensures Inv(After(s, st))
  {
    var p := st.p;
    assert PcOk(s, p);
    RefsCounted(s, st);
    RefAtLeast(s, p, p);
    hide Sum, Moved;
    forall x | 0 <= x < |s.pc| ensures PcOk(After(s, st), x) {
      PcKept(s, st, x);
    }
  }

  lemma RefsCounted(s: State, st: Step)
    requires Inv(s) && Enabled(s, st)
    ensures var r := After(s, st); r.ref == Sum(r.held) && |r.held| == |r.pc| == |s.pc|
  {
    hide Inv, PcOk, Sum;
    var p := st.p;
    RefIsSum(s, p);
    SumUpdate(s.held, p, s.held[p] + 1);
    if st.Drop? || st.Give? {
      SumUpdate(s.held, p, s.held[p] - 1);
    }
    if st.Give? {
      var h := s.held[p := s.held[p] - 1];
      SumUpdate(h, st.q, h[st.q] + 1);
    }
  }

  lemma RefIsSum(s: State, p: nat)
    requires Inv(s) && p < |s.pc|
    ensures s.ref == Sum(s.held) && |s.held| == |s.pc| && (s.pc[p].Dropping? ==> s.held[p] > 0)
  {
    assert PcOk(s, p);
  }

  ghost predicate Legal(s: State, run: seq<Step>)
    decreases |run|
  {
    run == [] || (Enabled(s, run[0]) && Legal(After(s, run[0]), run[1..]))
  }

  ghost function End(s: State, run: seq<Step>): (r: State)
    requires Legal(s, run)
    decreases |run|
  {
    if run == [] then s else End(After(s, run[0]), run[1..])
  }

  lemma {:induction false} RunInv(s: State, run: seq<Step>)
    requires Inv(s) && Legal(s, run)
    ensures Inv(End(s, run))
    decreases |run|
  {
    if run != [] {
      StepInv(s, run[0]);
      RunInv(After(s, run[0]), run[1..]);
    }
  }

  /** An inode with links that is in no table entry. */
  ghost predicate Start(s: State)
  {
    && |s.pc| == |s.held| && s.ref == 0 && s.table == s.holder == -1 && !s.valid && s.inUse && s.links > 0
    && (forall q :: 0 <= q < |s.pc| ==> s.pc[q].Out? && s.held[q] == 0)
  }

  lemma StartInv(s: State)
    requires Start(s)
    ensures Inv(s)
  {
    NoneHeld(s.held);
    assert forall q :: 0 <= q < |s.pc| ==> PcOk(s, q);
  }

  /** In every run: ref counts the references, whoever has the inode locked has one, and a process about to take the
      sleep lock in iput, itable.lock in hand, finds it free. */
  lemma IputNeverSleeps(s: State, run: seq<Step>, p: nat)
    requires Start(s) && Legal(s, run) && p < |End(s, run).pc|
    ensures var e := End(s, run);
            && |e.pc| == |e.held| && e.ref == Sum(e.held) && (0 <= e.holder < |e.held| ==> e.held[e.holder] > 0)
            && (e.pc[p].LastRef? ==> e.holder == -1 && Enabled(e, AcquireSleep(p)))
  {
    StartInv(s);
    RunInv(s, run);
    var e := End(s, run);
    assert PcOk(e, p);
    RefAtLeast(e, p, p);
    hide Sum, Legal, End;
  }

  /** In every run: an inode in use has a link or a reference, so that the one whose last reference goes while it has
      no link has been freed; and it is freed only without links, by the only process that refers to it. */
  lemma FreedExactly(s: State, run: seq<Step>)
    requires Start(s) && Legal(s, run)
    ensures var e := End(s, run);
            && (e.ref == 0 && e.links == 0 ==> !e.inUse && exists k :: 0 <= k < |run| && run[k].Truncated?)
            && (!e.inUse ==> e.links == 0)
  {
    StartInv(s);
    RunInv(s, run);
    hide Inv;
    FreedByIput(s, run);
  }

  lemma {:induction false} FreedByIput(s: State, run: seq<Step>)
    requires Inv(s) && Legal(s, run)
    ensures Inv(End(s, run)) && UseOk(End(s, run))
    ensures s.inUse && !End(s, run).inUse ==> exists k :: 0 <= k < |run| && run[k].Truncated?
    decreases |run|
  {
    if run != [] {
      StepInv(s, run[0]);
      hide PcOk, Sum;
      var r := run[1..];
      FreedByIput(After(s, run[0]), r);
      if k :| 0 <= k < |r| && r[k].Truncated? {
        assert run[k + 1].Truncated?;
      }
    }
  }

  /** When iput truncates, nobody else has a reference and the inode has no link. */
  lemma TruncatesAlone(s: State, run: seq<Step>, p: nat, q: nat)
    requires Start(s) && Legal(s, run) && p < |End(s, run).pc| && q < |End(s, run).pc| && p != q
    requires End(s, run).pc[p].Truncating?
    ensures var e := End(s, run); |e.held| == |e.pc| && e.held[q] == 0 && e.links == 0 && e.holder == p
  {
    StartInv(s);
    RunInv(s, run);
    var e := End(s, run);
    assert PcOk(e, p) && PcOk(e, q);
    RefAtLeast(e, q, p);
    hide Sum, Legal, End;
  }

  /** In every run: whoever has a reference and is not giving it up finds the inode in use, so that ilock waits only
      for the sleep lock and never reads an inode without a type. */
  lemma IlockFindsInode(s: State, run: seq<Step>, p: nat)
    requires Start(s) && Legal(s, run) && p < |End(s, run).pc| == |End(s, run).held|
    requires End(s, run).pc[p].Out? && End(s, run).held[p] > 0
    ensures End(s, run).inUse && (Enabled(End(s, run), Lock(p)) <==> End(s, run).holder == -1)
  {
    StartInv(s);
    RunInv(s, run);
    hide Sum, Legal, End;
    assert PcOk(End(s, run), p);
  }

  lemma {:induction false} NoneHeld(a: seq<nat>)
    requires forall i :: 0 <= i < |a| ==> a[i] == 0
    ensures Sum(a) == 0
  {
    if a != [] {
      NoneHeld(a[1..]);
    }
  }

  /** One more step at the front of a run. */
  lemma Before(s: State, st: Step, run: seq<Step>)
    requires Enabled(s, st) && Legal(After(s, st), run)
    ensures Legal(s, [st] + run) && End(s, [st] + run) == End(After(s, st), run)
  {
    hide Enabled, After;
    assert ([st] + run)[1..] == run;
  }

  /** iput as a whole, with itable.lock free: it ends with one reference fewer and the locks as they were, and the
      inode is freed exactly if that was the last reference to one that has been read and has no links. */
  lemma IputGoes(s: State, p: nat) returns (run: seq<Step>)
    requires Inv(s) && p < |s.pc| && s.pc[p].Out? && s.table == -1 && s.held[p] > (if s.holder == p then 1 else 0)
    ensures Legal(s, run)
    ensures var frees := s.ref == 1 && s.valid && s.links == 0;
            End(s, run) == s.(ref := s.ref - 1, held := s.held[p := s.held[p] - 1],
                              inUse := s.inUse && !frees, valid := s.valid && !frees)
  {
    hide Sum, Legal, End;
    assert PcOk(s, p);
    RefAtLeast(s, p, p);
    var a := After(s, Put(p));
    var b := After(a, Look(p));
    if s.ref == 1 && s.valid && s.links == 0 {
      run := LastGoes(b, p);
    } else {
      run := DropGoes(b, p);
    }
    Before(a, Look(p), run);
    Before(s, Put(p), [Look(p)] + run);
    run := [Put(p)] + ([Look(p)] + run);
    assert b.pc[p := Out] == s.pc;
  }

  lemma DropGoes(s: State, p: nat) returns (run: seq<Step>)
    requires p < |s.pc| == |s.held| && s.pc[p].Dropping? && s.held[p] > 0
    ensures Legal(s, run)
    ensures End(s, run) == s.(ref := s.ref - 1, held := s.held[p := s.held[p] - 1], table := -1, pc := s.pc[p := Out])
  {
    Nothing(After(s, Drop(p)));
    Before(s, Drop(p), []);
    run := [Drop(p)] + [];
  }

  lemma Nothing(s: State)
    ensures Legal(s, []) && End(s, []) == s
  {
  }

  lemma LastGoes(s: State, p: nat) returns (run: seq<Step>)
    requires p < |s.pc| == |s.held| && s.pc[p].LastRef? && s.held[p] > 0 && s.holder == -1
    ensures Legal(s, run)
    ensures End(s, run) == s.(ref := s.ref - 1, held := s.held[p := s.held[p] - 1], table := -1, pc := s.pc[p := Out],
                              inUse := false, valid := false)
  {
    hide Legal, End;
    var a := After(s, AcquireSleep(p));
    var b := After(a, Truncated(p));
    var c := After(b, Relock(p));
    run := DropGoes(c, p);
    Before(b, Relock(p), run);
    Before(a, Truncated(p), [Relock(p)] + run);
    Before(s, AcquireSleep(p), [Truncated(p)] + ([Relock(p)] + run));
    run := [AcquireSleep(p)] + ([Truncated(p)] + ([Relock(p)] + run));
    assert c.pc[p := Out] == s.pc[p := Out];
  }

  /** iget and idup as a whole: one more reference, and whoever has one can lock the inode and change its links. */
  lemma GetGoes(s: State, p: nat) returns (run: seq<Step>)
    requires Inv(s) && p < |s.pc| && s.pc[p].Out? && s.table == -1 && (s.links > 0 || s.held[p] > 0)
    ensures Legal(s, run) && var e := End(s, run);
            && e == s.(ref := s.ref + 1, held := s.held[p := s.held[p] + 1], valid := s.valid && s.ref > 0)
            && (s.holder == -1 ==> Enabled(e, Lock(p)))
  {
    hide Sum, Legal, End;
    UseOf(s);
    RefAtLeast(s, p, p);
    assert PcOk(s, p);
    var a := After(s, Get(p));
    var b := After(a, GotRef(p));
    Nothing(b);
    Before(a, GotRef(p), []);
    Before(s, Get(p), [GotRef(p)] + []);
    run := [Get(p)] + ([GotRef(p)] + []);
    assert b.pc == s.pc;
  }

  /** ilock, a change of nlink and iunlock. */
  lemma LockedGoes(s: State, p: nat, n: nat)
    requires Inv(s) && Enabled(s, Lock(p))
    ensures Legal(s, [Lock(p), SetLinks(p, n), Unlock(p)])
    ensures End(s, [Lock(p), SetLinks(p, n), Unlock(p)]) == s.(valid := true, links := n)
  {
    hide Sum, Legal, End;
    var a := After(s, Lock(p));
    var b := After(a, SetLinks(p, n));
    Nothing(After(b, Unlock(p)));
    Before(b, Unlock(p), []);
    Before(a, SetLinks(p, n), [Unlock(p)] + []);
    Before(s, Lock(p), [SetLinks(p, n)] + ([Unlock(p)] + []));
    assert [Lock(p), SetLinks(p, n), Unlock(p)] == [Lock(p)] + ([SetLinks(p, n)] + ([Unlock(p)] + []));
  }

  /** A reference that is passed on is counted once more where it goes and once less where it was. */
  lemma GiveGoes(s: State, p: nat, q: nat)
    requires Inv(s) && p < |s.pc| && q < |s.pc| && p != q
    requires s.pc[p].Out? && s.held[p] > (if s.holder == p then 1 else 0)
    ensures Enabled(s, Give(p, q))
    ensures After(s, Give(p, q)) == s.(held := s.held[p := s.held[p] - 1][q := s.held[q] + 1])
  {
    hide Sum, PcOk, UseOk;
  }

  /** In every run: a process in iget, idup or iput can go on, unless another holds itable.lock. */
  lemma NeverStuck(s: State, run: seq<Step>, p: nat)
    requires Start(s) && Legal(s, run) && p < |End(s, run).pc| && !End(s, run).pc[p].Out?
    ensures var e := End(s, run);
            (exists st: Step :: st.p == p && Enabled(e, st)) || (e.pc[p].Relocking? && 0 <= e.table && e.table != p)
  {
    StartInv(s);
    RunInv(s, run);
    var e := End(s, run);
    hide Sum, Legal, End;
    assert PcOk(e, p);
    RefAtLeast(e, p, p);
    var st := match e.pc[p]
      case Getting => GotRef(p)
      case Putting => Look(p)
      case LastRef => AcquireSleep(p)
      case Truncating => Truncated(p)
      case Relocking => Relock(p)
      case _ => Drop(p);
    assert st.p == p;
    assert Enabled(e, st) || (e.pc[p].Relocking? && 0 <= e.table && e.table != p);
  }
}
