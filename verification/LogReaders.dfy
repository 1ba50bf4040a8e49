/** A commit of kernel/log.c while other processes go on reading: between any two steps of it they may get, lock,
    fill, unlock and give back any buffer, and no buffer need be free.  They log nothing, since no operation is open
    while a commit runs (LogSpace.EndInv). */
module LogReaders {
  import opened Blocks
  import opened Bio
  import opened LogDisk
  import Log

  /** The transaction being committed by process `me`: what the cache and the disk were when it began. */
  datatype Tx = Tx(start: nat, lh: seq<Word>, me: nat, s0: Snapshot)

  /** Between two block writes, with block `i` changed and not yet written, or written and not yet unpinned. */
  datatype Phase = Ready | Changed(i: nat) | Written(i: nat)

  /** The cache, who has a reference to each buffer, who holds its sleep lock, and how many block writes of the
      commit are over. */
  datatype State = State(snap: Snapshot, refs: seq<set<nat>>, owner: map<nat, nat>, k: nat, phase: Phase)

  datatype Step =
    | Hit(p: nat, i: nat) | Recycle(p: nat, i: nat, b: nat) | Lock(p: nat, i: nat) | Load(p: nat, i: nat)
    | Unlock(p: nat, i: nat) | Drop(p: nat, i: nat)
    | Change(i: nat, j: nat) | Write | Unpin

  /** The commit may begin: something is logged, the pinned blocks are exactly the logged ones, all outside the log,
      and the on-disk log is empty. */
  ghost predicate Begins(tx: Tx)
  {
    && tx.lh != [] && Inv(tx.s0) && tx.s0.modified == {}
    && GoodHead(tx.s0.disk, tx.start, tx.lh) && Log.Distinct(tx.lh)
    && HeadLen(tx.s0.disk, tx.start) == 0
    && forall b :: b in tx.s0.logged <==> b in tx.lh
  }

  /** The number of block writes of the whole commit. */
  function Writes(tx: Tx): (n: nat)
  {
    2 * |tx.lh| + 2
  }

  /** Whether the k-th write (from 0) is one of install_trans. */
  predicate Installing(tx: Tx, k: nat)
  {
    |tx.lh| < k <= 2 * |tx.lh|
  }

  /** The block the k-th write goes to. */
  function Dst(tx: Tx, k: nat): (b: nat)
    requires k < Writes(tx)
  {
    if k < |tx.lh| then tx.start + k + 1 else if Installing(tx, k) then tx.lh[k - |tx.lh| - 1] else tx.start
  }

  /** The block it is made from. */
  function Src(tx: Tx, k: nat): (b: nat)
    requires k < Writes(tx)
  {
    if k < |tx.lh| then tx.lh[k] else if Installing(tx, k) then tx.start + (k - |tx.lh|) else tx.start
  }

  /** What write_log, write_head and install_trans make of the source block. */
  function Made(tx: Tx, k: nat, d: Block): (r: Block)
    requires k < Writes(tx) && |tx.lh| <= LOGBLOCKS
  {
    if k == |tx.lh| then EncodeHead(d, tx.lh) else if k == 2 * |tx.lh| + 1 then EncodeHead(d, []) else d
  }

  ghost predicate Owns(s: State, p: nat, i: nat)
  {
    i in s.owner && s.owner[i] == p
  }

  ghost predicate Can(tx: Tx, s: State, st: Step)
    requires Shape(s.snap) && |s.refs| == NBUF && |tx.lh| <= LOGBLOCKS
  {
    match st
    case Hit(p, i) => i < NBUF && s.snap.bufs[i].dev != 0 && p !in s.refs[i]
    case Recycle(p, i, b) => i < NBUF && s.snap.bufs[i].refcnt == 0 && b < |s.snap.disk| && b !in s.snap.index
    case Lock(p, i) => i < NBUF && p in s.refs[i] && !s.snap.bufs[i].locked
    case Load(p, i) => i < NBUF && Owns(s, p, i) && s.snap.bufs[i].blockno < |s.snap.disk|
    case Unlock(p, i) => i < NBUF && Owns(s, p, i) && (p == tx.me ==> s.phase.Ready?)
    case Drop(p, i) => i < NBUF && p in s.refs[i] && !Owns(s, p, i)
    case Change(i, j) =>
      && s.phase.Ready? && s.k < Writes(tx) && i < NBUF && j < NBUF && Owns(s, tx.me, i) && Owns(s, tx.me, j)
      && s.snap.bufs[i].valid && s.snap.bufs[j].valid && s.snap.bufs[i].blockno < |s.snap.disk|
      && s.snap.bufs[i].blockno == Dst(tx, s.k) && s.snap.bufs[j].blockno == Src(tx, s.k)
    case Write => s.phase.Changed? && s.phase.i < NBUF && s.snap.bufs[s.phase.i].blockno < |s.snap.disk|
    case Unpin => s.phase.Written? && s.phase.i < NBUF
  }

  ghost function After(tx: Tx, s: State, st: Step): (r: State)
    requires Shape(s.snap) && |s.refs| == NBUF && |tx.lh| <= LOGBLOCKS && Can(tx, s, st)
  {
    match st
    case Hit(p, i) => s.(snap := Bio.Hit(s.snap, i), refs := s.refs[i := s.refs[i] + {p}])
    case Recycle(p, i, b) => s.(snap := Bio.Recycle(s.snap, i, b), refs := s.refs[i := {p}])
    case Lock(p, i) => s.(snap := Bio.Lock(s.snap, i), owner := s.owner[i := p])
    case Load(p, i) => s.(snap := Bio.Load(s.snap, i))
    case Unlock(p, i) => s.(snap := Bio.Unlock(s.snap, i), owner := s.owner - {i})
    case Drop(p, i) => s.(snap := Bio.Drop(s.snap, i), refs := s.refs[i := s.refs[i] - {p}])
    case Change(i, j) =>
      s.(snap := Modify(s.snap, i, Made(tx, s.k, s.snap.bufs[j].data)), phase := Changed(i))
    case Write =>
      if Installing(tx, s.k) then s.(snap := Bio.Write(s.snap, s.phase.i), phase := Written(s.phase.i))
      else s.(snap := Bio.Write(s.snap, s.phase.i), phase := Ready, k := s.k + 1)
    case Unpin => s.(snap := Bio.Unpin(s.snap, s.phase.i), phase := Ready, k := s.k + 1)
  }

  // ----- the disk and the view after k writes

  ghost function DiskAt(tx: Tx, k: nat): (d: Image)
    requires Begins(tx) && k <= Writes(tx)
    ensures |d| == |tx.s0.disk|
  {
    var c := Committed(tx.s0.disk, tx.start, tx.s0.view, tx.lh);
    if k <= |tx.lh| then LogCopied(tx.s0.disk, tx.start, tx.s0.view, tx.lh, k)
    else if k < Writes(tx) then Install(c, tx.start, tx.lh, k - |tx.lh| - 1)
    else ClearHead(Install(c, tx.start, tx.lh, |tx.lh|), tx.start)
  }

  /** Readers see the transaction in the home blocks, and the disk in the log. */
  ghost function ViewAt(tx: Tx, k: nat): (v: Image)
    requires Begins(tx) && k <= Writes(tx)
    ensures |v| == |tx.s0.disk|
  {
    seq(|tx.s0.disk|, b requires 0 <= b < |tx.s0.disk| =>
      if Home(tx.start, b) then tx.s0.view[b] else DiskAt(tx, k)[b])
  }

  /** How many entries are home and unpinned after k writes. */
  function Installed(tx: Tx, k: nat): (m: nat)
    ensures m <= |tx.lh|
  {
    if k <= |tx.lh| then 0 else if k <= 2 * |tx.lh| + 1 then k - |tx.lh| - 1 else |tx.lh|
  }

  ghost function Trace(tx: Tx): (t: seq<Image>)
    requires Begins(tx)
  {
    CommitTrace(tx.s0.disk, tx.start, tx.s0.view, tx.lh)
  }

  lemma TraceAt(tx: Tx, k: nat)
    requires Begins(tx) && k < Writes(tx)
    ensures |Trace(tx)| == Writes(tx) && Trace(tx)[k] == DiskAt(tx, k + 1)
  {
  }

  /** In the second half the log blocks hold the transaction. */
  lemma LogHolds(tx: Tx, k: nat, t: nat)
    requires Begins(tx) && |tx.lh| < k < Writes(tx) && t < |tx.lh|
    ensures DiskAt(tx, k)[tx.start + t + 1] == tx.s0.view[tx.lh[t]]
  {
    var c := Committed(tx.s0.disk, tx.start, tx.s0.view, tx.lh);
    LogUntouched(c, tx.start, tx.lh, k - |tx.lh| - 1);
    LogCopiedAt(tx.s0.disk, tx.start, tx.s0.view, tx.lh, |tx.lh|, tx.start + t + 1);
  }

  lemma InRange(tx: Tx, k: nat)
    requires Begins(tx) && k < Writes(tx)
    ensures Dst(tx, k) < |tx.s0.disk| && Src(tx, k) < |tx.s0.disk|
    ensures Home(tx.start, Dst(tx, k)) <==> Installing(tx, k)
  {
  }

  /** The k-th write is of what readers see in its source block, and it takes each disk to the next. */
  lemma DiskStep(tx: Tx, k: nat)
    requires Begins(tx) && k < Writes(tx)
    ensures Dst(tx, k) < |tx.s0.disk| && Src(tx, k) < |tx.s0.disk|
    ensures DiskAt(tx, k + 1) == DiskAt(tx, k)[Dst(tx, k) := Made(tx, k, ViewAt(tx, k)[Src(tx, k)])]
  {
    InRange(tx, k);
    var n := |tx.lh|;
    if k < n {
      assert Home(tx.start, tx.lh[k]);
    } else if k == n {
      LogCopiedAt(tx.s0.disk, tx.start, tx.s0.view, tx.lh, n, tx.start);
    } else if k <= 2 * n {
      var c := Committed(tx.s0.disk, tx.start, tx.s0.view, tx.lh);
      LogUntouched(c, tx.start, tx.lh, k - n - 1);
    }
  }

  lemma ViewPut(tx: Tx, k: nat, x: nat, d: Block)
    requires Begins(tx) && k < Writes(tx) && x < |tx.s0.disk| && |tx.s0.view| == |tx.s0.disk|
    requires DiskAt(tx, k + 1) == DiskAt(tx, k)[x := d] && (Home(tx.start, x) ==> d == tx.s0.view[x])
    ensures ViewAt(tx, k + 1) == ViewAt(tx, k)[x := d]
  {
    hide DiskAt, Begins, Home;
  }

  /** The write changes nothing readers see outside the log. */
  lemma ViewStep(tx: Tx, k: nat)
    requires Begins(tx) && k < Writes(tx)
    ensures Dst(tx, k) < |tx.s0.disk| && Src(tx, k) < |tx.s0.disk|
    ensures ViewAt(tx, k + 1) == ViewAt(tx, k)[Dst(tx, k) := Made(tx, k, ViewAt(tx, k)[Src(tx, k)])]
  {
    hide DiskAt;
    InRange(tx, k);
    DiskStep(tx, k);
    if Installing(tx, k) {
      LogHolds(tx, k, k - |tx.lh| - 1);
    }
    ViewPut(tx, k, Dst(tx, k), Made(tx, k, ViewAt(tx, k)[Src(tx, k)]));
  }

  // ----- what every step keeps

  /** References and locks are accounted for, process by process. */
  ghost predicate Held(s: State)
  {
    && Inv(s.snap) && |s.refs| == NBUF
    && (forall i :: 0 <= i < NBUF ==> s.snap.users[i] == |s.refs[i]|)
    && (forall i :: 0 <= i < NBUF ==> (s.snap.bufs[i].locked <==> i in s.owner))
    && (forall i :: 0 <= i < NBUF && i in s.owner ==> s.owner[i] in s.refs[i])
  }

  /** The block a phase is about is in a buffer the committing process has locked. */
  ghost predicate InHand(tx: Tx, s: State)
    requires Shape(s.snap)
  {
    s.phase.Ready? ||
    (s.k < Writes(tx) && s.phase.i < NBUF && Owns(s, tx.me, s.phase.i) && s.snap.bufs[s.phase.i].valid
     && s.snap.bufs[s.phase.i].dev != 0 && s.snap.bufs[s.phase.i].blockno == Dst(tx, s.k))
  }

  /** The block writes so far. */
  ghost function Done(s: State): (n: nat)
  {
    if s.phase.Written? then s.k + 1 else s.k
  }

  /** Cache, disk and trace are those after the block writes so far. */
  ghost predicate Tracks(tx: Tx, s: State)
    requires Begins(tx)
  {
    && s.k <= Writes(tx) && (!s.phase.Ready? ==> s.k < Writes(tx)) && (s.phase.Written? ==> Installing(tx, s.k))
    && s.snap.disk == DiskAt(tx, Done(s))
    && s.snap.view == ViewAt(tx, if s.phase.Ready? then s.k else s.k + 1)
    && |Trace(tx)| == Writes(tx) && s.snap.trace == tx.s0.trace + Trace(tx)[..Done(s)]
    && (forall b :: b in s.snap.logged <==> b in tx.lh[Installed(tx, s.k)..])
    && s.snap.modified == if s.phase.Changed? then {Dst(tx, s.k)} else {}
  }

  ghost predicate Ok(tx: Tx, s: State)
    requires Begins(tx)
  {
    Held(s) && InHand(tx, s) && Tracks(tx, s)
  }

  /** Only the bookkeeping of buffers changed. */
  ghost predicate SameBlocks(a: Snapshot, b: Snapshot)
  {
    a.disk == b.disk && a.view == b.view && a.trace == b.trace && a.logged == b.logged && a.modified == b.modified
  }

  lemma TracksSame(tx: Tx, s: State, r: State)
    requires Begins(tx) && Tracks(tx, s) && SameBlocks(s.snap, r.snap) && s.k == r.k && s.phase == r.phase
    ensures Tracks(tx, r)
  {
    hide DiskAt, ViewAt, Trace;
  }

  /** A buffer that someone references or has locked is in use; one nobody references is neither. */
  lemma InUse(s: State, i: nat)
    requires Held(s) && i < NBUF
    ensures s.refs[i] != {} || i in s.owner ==> s.snap.users[i] > 0 && s.snap.bufs[i].refcnt > 0
    ensures s.refs[i] != {} || i in s.owner ==> s.snap.bufs[i].dev != 0
  {
    assert BufOk(s.snap, i);
  }

  /** A step on buffer i that leaves the others as they were. */
  lemma HeldAt(s: State, r: State, i: nat)
    requires Held(s) && i < NBUF && Inv(r.snap) && |r.refs| == NBUF
    requires forall x :: 0 <= x < NBUF && x != i ==>
               && r.snap.users[x] == s.snap.users[x] && r.snap.bufs[x].locked == s.snap.bufs[x].locked
               && r.refs[x] == s.refs[x] && (x in r.owner <==> x in s.owner)
               && (x in s.owner ==> r.owner[x] == s.owner[x])
    requires r.snap.users[i] == |r.refs[i]| && (r.snap.bufs[i].locked <==> i in r.owner)
    requires i in r.owner ==> r.owner[i] in r.refs[i]
    ensures Held(r)
  {
    hide Inv;
  }

  lemma GetHeld(tx: Tx, s: State, st: Step)
    requires Held(s) && |tx.lh| <= LOGBLOCKS && Can(tx, s, st) && (st.Hit? || st.Recycle?)
    ensures Held(After(tx, s, st)) && SameBlocks(s.snap, After(tx, s, st).snap)
  {
    if st.Hit? {
      HitHeld(tx, s, st);
    } else {
      RecycleHeld(tx, s, st);
    }
  }

  lemma HitHeld(tx: Tx, s: State, st: Step)
    requires Held(s) && |tx.lh| <= LOGBLOCKS && Can(tx, s, st) && st.Hit?
    ensures Held(After(tx, s, st)) && SameBlocks(s.snap, After(tx, s, st).snap)
  {
    InUse(s, st.i);
    assert BufOk(s.snap, st.i);
    HitInv(s.snap, st.i);
    HeldAt(s, After(tx, s, st), st.i);
  }

  lemma RecycleHeld(tx: Tx, s: State, st: Step)
    requires Held(s) && |tx.lh| <= LOGBLOCKS && Can(tx, s, st) && st.Recycle?
    ensures Held(After(tx, s, st)) && SameBlocks(s.snap, After(tx, s, st).snap)
  {
    InUse(s, st.i);
    assert BufOk(s.snap, st.i);
    RecycleInv(s.snap, st.i, st.b);
    HeldAt(s, After(tx, s, st), st.i);
  }

  lemma LockHeld(tx: Tx, s: State, st: Step)
    requires Held(s) && |tx.lh| <= LOGBLOCKS && Can(tx, s, st) && (st.Lock? || st.Load?)
    ensures Held(After(tx, s, st)) && SameBlocks(s.snap, After(tx, s, st).snap)
  {
    InUse(s, st.i);
    if st.Lock? {
      LockInv(s.snap, st.i);
    } else {
      LoadInv(s.snap, st.i);
    }
    HeldAt(s, After(tx, s, st), st.i);
  }

  lemma GiveHeld(tx: Tx, s: State, st: Step)
    requires Held(s) && |tx.lh| <= LOGBLOCKS && Can(tx, s, st) && (st.Unlock? || st.Drop?)
    requires st.Unlock? ==> s.snap.bufs[st.i].blockno !in s.snap.modified
    ensures Held(After(tx, s, st)) && SameBlocks(s.snap, After(tx, s, st).snap)
  {
    InUse(s, st.i);
    if st.Unlock? {
      UnlockInv(s.snap, st.i);
    } else {
      TwoRefs(s, st.i, st.p);
      DropInv(s.snap, st.i);
    }
    HeldAt(s, After(tx, s, st), st.i);
  }

  lemma TwoRefs(s: State, i: nat, p: nat)
    requires Held(s) && i < NBUF && p in s.refs[i] && !Owns(s, p, i)
    ensures s.snap.users[i] > if s.snap.bufs[i].locked then 1 else 0
  {
    if i in s.owner {
      assert {p, s.owner[i]} <= s.refs[i];
      assert s.refs[i] == {p, s.owner[i]} + (s.refs[i] - {p, s.owner[i]});
    }
  }

  /** Whoever unlocks a buffer has not changed it: only the committing process changes blocks, and it writes them
      before it unlocks them. */
  lemma UnlockClean(tx: Tx, s: State, p: nat, i: nat)
    requires Begins(tx) && Ok(tx, s) && i < NBUF && Owns(s, p, i) && (p == tx.me ==> s.phase.Ready?)
    ensures s.snap.bufs[i].blockno !in s.snap.modified
  {
    hide DiskAt, ViewAt, Trace, Begins;
    if s.phase.Changed? {
      InUse(s, i);
      assert BufOk(s.snap, i) && BufOk(s.snap, s.phase.i);
      CacheRefinesDisk(s.snap, i, s.phase.i);
    }
  }

  /** The buffer in hand is referenced and locked, so no reader's step touches it. */
  lemma HandKept(tx: Tx, s: State, st: Step)
    requires Held(s) && InHand(tx, s) && |tx.lh| <= LOGBLOCKS && Can(tx, s, st)
    requires !st.Change? && !st.Write? && !st.Unpin?
    ensures InHand(tx, After(tx, s, st))
  {
    if !s.phase.Ready? {
      InUse(s, s.phase.i);
    }
    hide Held;
  }

  lemma ReaderHeld(tx: Tx, s: State, st: Step)
    requires Begins(tx) && Ok(tx, s) && Can(tx, s, st) && !st.Change? && !st.Write? && !st.Unpin?
    ensures Held(After(tx, s, st)) && SameBlocks(s.snap, After(tx, s, st).snap)
  {
    hide Held, Tracks, InHand, After, SameBlocks;
    if st.Hit? || st.Recycle? {
      GetHeld(tx, s, st);
    } else if st.Lock? || st.Load? {
      LockHeld(tx, s, st);
    } else {
      if st.Unlock? {
        UnlockClean(tx, s, st.p, st.i);
      }
      GiveHeld(tx, s, st);
    }
  }

  lemma ReaderStep(tx: Tx, s: State, st: Step)
    requires Begins(tx) && Ok(tx, s) && Can(tx, s, st) && !st.Change? && !st.Write? && !st.Unpin?
    ensures Ok(tx, After(tx, s, st))
  {
    hide Tracks, InHand, Can, SameBlocks, Inv;
    BothOk(s.snap, 0, 0);
    ReaderHeld(tx, s, st);
    HandKept(tx, s, st);
    TracksSame(tx, s, After(tx, s, st));
  }

  // ----- the committing process

  lemma ChangeHeld(s: State, i: nat, d: Block, phase: Phase)
    requires Held(s) && i < NBUF && i in s.owner && s.snap.bufs[i].valid
    ensures s.snap.bufs[i].blockno < |s.snap.disk|
    ensures Held(s.(snap := Modify(s.snap, i, d), phase := phase))
  {
    assert BufOk(s.snap, i);
    ModifyInv(s.snap, i, d);
    HeldAt(s, s.(snap := Modify(s.snap, i, d), phase := phase), i);
  }

  lemma ChangeTracks(tx: Tx, s: State, i: nat, d: Block)
    requires Begins(tx) && Tracks(tx, s) && Shape(s.snap) && s.phase.Ready? && s.k < Writes(tx) && i < NBUF
    requires s.snap.bufs[i].blockno == Dst(tx, s.k) < |s.snap.disk| && Src(tx, s.k) < |s.snap.disk|
    requires d == Made(tx, s.k, s.snap.view[Src(tx, s.k)])
    ensures Tracks(tx, s.(snap := Modify(s.snap, i, d), phase := Changed(i)))
  {
    hide DiskAt, ViewAt, Trace, Begins, Made, Dst, Src;
    ViewStep(tx, s.k);
  }

  lemma ChangeOk(tx: Tx, s: State, i: nat, j: nat)
    requires Begins(tx) && Ok(tx, s) && Can(tx, s, Change(i, j))
    ensures Ok(tx, After(tx, s, Change(i, j)))
  {
    hide DiskAt, ViewAt, Trace, Tracks, Inv;
    InUse(s, i);
    InUse(s, j);
    BothOk(s.snap, i, j);
    ChangeHeld(s, i, Made(tx, s.k, s.snap.bufs[j].data), Changed(i));
    ChangeTracks(tx, s, i, Made(tx, s.k, s.snap.bufs[j].data));
    hide Held, Begins;
  }

  lemma BothOk(s: Snapshot, i: nat, j: nat)
    requires Inv(s) && i < NBUF && j < NBUF
    ensures Shape(s) && BufOk(s, i) && BufOk(s, j)
  {
  }

  lemma WriteHeld(s: State, i: nat, k: nat, phase: Phase)
    requires Held(s) && i < NBUF && i in s.owner && s.snap.bufs[i].valid
    ensures s.snap.bufs[i].blockno < |s.snap.disk|
    ensures Held(s.(snap := Bio.Write(s.snap, i), k := k, phase := phase))
  {
    assert BufOk(s.snap, i);
    WriteInv(s.snap, i);
    HeldAt(s, s.(snap := Bio.Write(s.snap, i), k := k, phase := phase), i);
  }

  lemma WriteTracks(tx: Tx, s: State)
    requires Begins(tx) && Tracks(tx, s) && Shape(s.snap) && s.phase.Changed? && s.phase.i < NBUF
    requires s.snap.bufs[s.phase.i].blockno == Dst(tx, s.k) < |s.snap.disk|
    requires s.snap.bufs[s.phase.i].data == s.snap.view[Dst(tx, s.k)]
    ensures var w := Bio.Write(s.snap, s.phase.i);
            Tracks(tx, if Installing(tx, s.k) then s.(snap := w, phase := Written(s.phase.i))
                       else s.(snap := w, phase := Ready, k := s.k + 1))
  {
    hide DiskAt, ViewAt, Trace, Begins, Made, Dst, Src;
    ViewStep(tx, s.k);
    DiskStep(tx, s.k);
    TraceAt(tx, s.k);
    var t, d := tx.s0.trace, DiskAt(tx, s.k + 1);
    assert Trace(tx)[..s.k + 1] == Trace(tx)[..s.k] + [d];
    assert (t + Trace(tx)[..s.k]) + [d] == t + Trace(tx)[..s.k + 1];
    assert {Dst(tx, s.k)} - {Dst(tx, s.k)} == {};
  }

  lemma WriteOk(tx: Tx, s: State)
    requires Begins(tx) && Ok(tx, s) && Can(tx, s, Step.Write)
    ensures Ok(tx, After(tx, s, Step.Write))
  {
    hide DiskAt, ViewAt, Trace, Tracks, Inv;
    BothOk(s.snap, s.phase.i, s.phase.i);
    WriteHeld(s, s.phase.i, s.k, Written(s.phase.i));
    WriteHeld(s, s.phase.i, s.k + 1, Ready);
    WriteTracks(tx, s);
    hide Held, Begins;
  }

  lemma UnpinHeld(s: State, i: nat, k: nat, phase: Phase)
    requires Held(s) && i < NBUF && i in s.owner && s.snap.bufs[i].dev != 0
    requires s.snap.bufs[i].blockno in s.snap.logged && s.snap.bufs[i].blockno < |s.snap.disk|
    requires s.snap.view[s.snap.bufs[i].blockno] == s.snap.disk[s.snap.bufs[i].blockno]
    ensures Held(s.(snap := Bio.Unpin(s.snap, i), k := k, phase := phase))
  {
    assert BufOk(s.snap, i);
    UnpinInv(s.snap, i);
    HeldAt(s, s.(snap := Bio.Unpin(s.snap, i), k := k, phase := phase), i);
  }

  /** The block in hand has just been installed: it is on the disk as readers see it, and pinned. */
  lemma JustInstalled(tx: Tx, s: State)
    requires Begins(tx) && Tracks(tx, s) && s.phase.Written?
    ensures var b := Dst(tx, s.k);
            && b in s.snap.logged && b < |s.snap.disk| == |s.snap.view| && s.snap.view[b] == s.snap.disk[b]
            && forall x :: x in s.snap.logged - {b} <==> x in tx.lh[Installed(tx, s.k + 1)..]
  {
    hide DiskAt, ViewAt, Trace, Made, Src;
    var m := Installed(tx, s.k);
    ViewStep(tx, s.k);
    DiskStep(tx, s.k);
    assert tx.lh[m..] == [tx.lh[m]] + tx.lh[m + 1..];
    assert tx.lh[m] !in tx.lh[m + 1..];
  }

  lemma UnpinOk(tx: Tx, s: State)
    requires Begins(tx) && Ok(tx, s) && Can(tx, s, Step.Unpin)
    ensures Ok(tx, After(tx, s, Step.Unpin))
  {
    hide DiskAt, ViewAt, Trace, Inv, Begins;
    JustInstalled(tx, s);
    UnpinHeld(s, s.phase.i, s.k + 1, Ready);
    hide Held;
  }

  lemma StepOk(tx: Tx, s: State, st: Step)
    requires Begins(tx) && Ok(tx, s) && Can(tx, s, st)
    ensures Ok(tx, After(tx, s, st))
  {
    hide Ok, Can, After;
    match st
    case Change(i, j) => ChangeOk(tx, s, i, j);
    case Write => WriteOk(tx, s);
    case Unpin => UnpinOk(tx, s);
    case _ => ReaderStep(tx, s, st);
  }

  // ----- what can always be done

  /** A turn of the commit, once its process has the source and the destination block in valid buffers it has locked:
      the write can be made, and unpinned if it is an installation, and it is the next one. */
  lemma TurnGoes(tx: Tx, s: State, i: nat, j: nat) returns (r: State)
    requires Begins(tx) && Ok(tx, s) && s.phase.Ready? && s.k < Writes(tx) && i < NBUF && j < NBUF
    requires Owns(s, tx.me, i) && Owns(s, tx.me, j) && s.snap.bufs[i].valid && s.snap.bufs[j].valid
    requires s.snap.bufs[i].dev != 0 && s.snap.bufs[i].blockno == Dst(tx, s.k)
    requires s.snap.bufs[j].dev != 0 && s.snap.bufs[j].blockno == Src(tx, s.k)
    ensures Can(tx, s, Change(i, j)) && var a := After(tx, s, Change(i, j));
            && Shape(a.snap) && |a.refs| == NBUF && Can(tx, a, Write) && var b := After(tx, a, Write);
               if Installing(tx, s.k) then
                 Shape(b.snap) && |b.refs| == NBUF && Can(tx, b, Unpin) && r == After(tx, b, Unpin)
               else r == b
    ensures Ok(tx, r) && r.k == s.k + 1 && r.phase.Ready? && r.refs == s.refs && r.owner == s.owner
    ensures r.snap.disk == DiskAt(tx, s.k + 1)
  {
    hide Ok, Begins, DiskAt, ViewAt, Trace, Tracks, Inv;
    OkIs(tx, s);
    InRange(tx, s.k);
    InPlace(tx, s, i);
    StepOk(tx, s, Change(i, j));
    var a := After(tx, s, Change(i, j));
    OkIs(tx, a);
    StepOk(tx, a, Write);
    r := After(tx, a, Write);
    OkIs(tx, r);
    if Installing(tx, s.k) {
      StepOk(tx, r, Unpin);
      r := After(tx, r, Unpin);
      OkIs(tx, r);
    }
  }

  lemma OkIs(tx: Tx, s: State)
    requires Begins(tx) && Ok(tx, s)
    ensures Shape(s.snap) && |s.refs| == NBUF && |tx.lh| <= LOGBLOCKS && Held(s) && Inv(s.snap)
    ensures s.k <= Writes(tx) && s.snap.disk == DiskAt(tx, Done(s)) && |s.snap.disk| == |tx.s0.disk|
    ensures |s.snap.view| == |s.snap.disk| && s.snap.view == ViewAt(tx, if s.phase.Ready? then s.k else s.k + 1)
  {
    hide DiskAt, ViewAt, Trace;
  }

  lemma InPlace(tx: Tx, s: State, i: nat)
    requires Inv(s.snap) && i < NBUF && s.snap.bufs[i].dev != 0
    ensures s.snap.bufs[i].blockno < |s.snap.disk|
  {
    assert BufOk(s.snap, i);
  }

  /** A reader gets a block: the buffer that has it, if nobody has locked that, or else any buffer without references;
      it then holds the block as readers must see it. */
  lemma ReadGoes(tx: Tx, s: State, p: nat, i: nat, b: nat) returns (get: Step, r: State)
    requires Begins(tx) && Ok(tx, s) && i < NBUF && b < |tx.s0.disk|
    requires Shape(s.snap) && |s.refs| == NBUF && p !in s.refs[i]
    requires if b in s.snap.index then i == s.snap.index[b] && !s.snap.bufs[i].locked else s.snap.bufs[i].refcnt == 0
    ensures Can(tx, s, get) && var x := After(tx, s, get);
            && Shape(x.snap) && |x.refs| == NBUF && Can(tx, x, Lock(p, i)) && var y := After(tx, x, Lock(p, i));
            && Shape(y.snap) && |y.refs| == NBUF && Can(tx, y, Load(p, i)) && r == After(tx, y, Load(p, i))
    ensures Ok(tx, r) && Owns(r, p, i) && r.k == s.k && r.phase == s.phase
    ensures r.snap.view == s.snap.view && b < |r.snap.view|
    ensures r.snap.bufs[i].valid && r.snap.bufs[i].blockno == b && r.snap.bufs[i].data == r.snap.view[b]
  {
    hide Ok, Begins, DiskAt, ViewAt, Trace, Tracks, Inv, Held;
    OkIs(tx, s);
    FoundOrFree(s, i, b);
    get := if b in s.snap.index then Hit(p, i) else Recycle(p, i, b);
    StepOk(tx, s, get);
    var x := After(tx, s, get);
    OkIs(tx, x);
    StepOk(tx, x, Lock(p, i));
    var y := After(tx, x, Lock(p, i));
    OkIs(tx, y);
    StepOk(tx, y, Load(p, i));
    r := After(tx, y, Load(p, i));
    OkIs(tx, r);
    ValidIsView(r.snap, i);
  }

  lemma FoundOrFree(s: State, i: nat, b: nat)
    requires Held(s) && Inv(s.snap) && i < NBUF
    ensures b in s.snap.index && i == s.snap.index[b] ==> s.snap.bufs[i].dev != 0 && s.snap.bufs[i].blockno == b
    ensures s.snap.bufs[i].refcnt == 0 ==> !s.snap.bufs[i].locked
  {
    assert BufOk(s.snap, i);
    if b in s.snap.index {
      assert Cached(s.snap, b);
    }
  }

  lemma ValidIsView(s: Snapshot, i: nat)
    requires Inv(s) && i < NBUF && s.bufs[i].dev != 0 && s.bufs[i].valid
    ensures s.bufs[i].blockno < |s.view| && s.bufs[i].data == s.view[s.bufs[i].blockno]
  {
    assert BufOk(s, i);
  }

  /** And gives it back. */
  lemma GiveGoes(tx: Tx, s: State, p: nat, i: nat) returns (r: State)
    requires Begins(tx) && Ok(tx, s) && i < NBUF && Owns(s, p, i) && (p == tx.me ==> s.phase.Ready?)
    ensures Shape(s.snap) && |s.refs| == NBUF && |tx.lh| <= LOGBLOCKS
    ensures Can(tx, s, Unlock(p, i)) && var x := After(tx, s, Unlock(p, i));
            Shape(x.snap) && |x.refs| == NBUF && Can(tx, x, Drop(p, i)) && r == After(tx, x, Drop(p, i))
    ensures Ok(tx, r) && i !in r.owner && r.refs == s.refs[i := s.refs[i] - {p}] && r.snap.view == s.snap.view
  {
    hide Ok, Begins, DiskAt, ViewAt, Trace, Tracks, Inv;
    OkIs(tx, s);
    StepOk(tx, s, Unlock(p, i));
    var x := After(tx, s, Unlock(p, i));
    OkIs(tx, x);
    StepOk(tx, x, Drop(p, i));
    r := After(tx, x, Drop(p, i));
  }

  // ----- whole runs

  /** A run: the commit begins among any readers, and any steps that can happen do. */
  ghost predicate Run(tx: Tx, run: seq<State>, steps: seq<Step>)
  {
    && Begins(tx) && |run| == |steps| + 1
    && run[0].snap == tx.s0 && run[0].k == 0 && run[0].phase.Ready? && Held(run[0])
    && forall k :: 0 <= k < |steps| ==>
         Shape(run[k].snap) && |run[k].refs| == NBUF && Can(tx, run[k], steps[k]) &&
         run[k + 1] == After(tx, run[k], steps[k])
  }

  lemma StartOk(tx: Tx, s: State)
    requires Begins(tx) && s.snap == tx.s0 && s.k == 0 && s.phase.Ready? && Held(s)
    ensures Ok(tx, s)
  {
    TraceAt(tx, 0);
    assert tx.lh[0..] == tx.lh;
    assert tx.s0.trace + Trace(tx)[..0] == tx.s0.trace;
    assert tx.s0.view == ViewAt(tx, 0);
  }

  lemma {:induction false} RunOk(tx: Tx, run: seq<State>, steps: seq<Step>, m: nat)
    requires Run(tx, run, steps) && m < |run|
    ensures Ok(tx, run[m])
  {
    if m == 0 {
      StartOk(tx, run[0]);
    } else {
      RunOk(tx, run, steps, m - 1);
      StepOk(tx, run[m - 1], steps[m - 1]);
    }
  }

  /** Whatever the readers do, the disks the commit passes through are those of CommitTrace, one after the other,
      up to the moment looked at. */
  lemma CommitAmongReaders(tx: Tx, run: seq<State>, steps: seq<Step>, m: nat)
    requires Run(tx, run, steps) && m < |run|
    ensures Done(run[m]) <= |Trace(tx)|
    ensures run[m].snap.trace == tx.s0.trace + Trace(tx)[..Done(run[m])]
    ensures run[m].snap.disk == if Done(run[m]) == 0 then tx.s0.disk else Trace(tx)[Done(run[m]) - 1]
  {
    RunOk(tx, run, steps, m);
    if Done(run[m]) > 0 {
      TraceAt(tx, Done(run[m]) - 1);
    }
    hide Run, Held;
  }

  /** A process that has a block of the file system in a valid buffer sees it with the transaction in it, at
      every moment of the commit. */
  lemma ReadersSeeCommitted(tx: Tx, run: seq<State>, steps: seq<Step>, m: nat, i: nat)
    requires Run(tx, run, steps) && m < |run| && i < NBUF && i < |run[m].snap.bufs|
    requires run[m].snap.bufs[i].dev != 0 && run[m].snap.bufs[i].valid
    requires Home(tx.start, run[m].snap.bufs[i].blockno)
    ensures run[m].snap.bufs[i].blockno < |tx.s0.view|
    ensures run[m].snap.bufs[i].data == tx.s0.view[run[m].snap.bufs[i].blockno]
  {
    RunOk(tx, run, steps, m);
    assert BufOk(run[m].snap, i);
    hide Run, DiskAt, Trace;
  }

  /** A crash at any moment, readers or not, and then any number of recoveries of which only the last completes. */
  lemma CrashAmongReaders(tx: Tx, run: seq<State>, steps: seq<Step>, m: nat, ds: seq<Image>)
    requires Run(tx, run, steps) && m < |run|
    requires CrashRun(ds, tx.start) && ds[0] == run[m].snap.disk
    ensures GoodDisk(ds[|ds| - 1], tx.start)
    ensures var r := Recover(ds[|ds| - 1], tx.start);
            if Done(run[m]) <= |tx.lh| then HomeSame(tx.start, r, tx.s0.disk)
            else Applied(tx.start, tx.s0.disk, tx.s0.view, tx.lh, r)
  {
    CommitAmongReaders(tx, run, steps, m);
    if Done(run[m]) == 0 {
      CrashBeforeCommit(tx.s0.disk, tx.start, tx.s0.view, tx.lh, 0);
      RecoverAfterAnyCrashes(ds, tx.start);
    } else {
      CrashAtomicityRun(tx.s0.disk, tx.start, tx.s0.view, tx.lh, Done(run[m]) - 1, ds);
    }
  }

  /** When the commit is over, the disk holds what readers saw, nothing is pinned and the log is empty. */
  lemma CommitOver(tx: Tx, run: seq<State>, steps: seq<Step>, m: nat)
    requires Run(tx, run, steps) && m < |run| && run[m].k == Writes(tx)
    ensures HomeSame(tx.start, run[m].snap.disk, tx.s0.view) && run[m].snap.logged == {}
    ensures HeadLen(run[m].snap.disk, tx.start) == 0
  {
    RunOk(tx, run, steps, m);
    var c := Committed(tx.s0.disk, tx.start, tx.s0.view, tx.lh);
    CommittedHead(tx.s0.disk, tx.start, tx.s0.view, tx.lh);
    CommittedRecovers(tx.s0.disk, tx.start, tx.s0.view, tx.lh);
    ClearTwice(Install(c, tx.start, tx.lh, |tx.lh|), tx.start);
    hide Run, Held, Trace, Committed, Install;
  }
}
