/** Log space in kernel/log.c.  The regions of begin_op, log_write and end_op that run under
    log.lock, and the end of a commit, are the steps of a system of P processes; every
    interleaving is a run of it. */
module LogSpace {
  import opened LogDisk
  import opened Blocks

  /** A process's file system operation: the blocks it has logged, and those of them that were
      not yet in the log, so that it appended them. */
  datatype Op = Closed | Open(written: set<nat>, appended: set<nat>)

  datatype State =
    | State(lh: seq<Word>, outstanding: nat, committing: bool, ops: seq<Op>)
    | Panicked

  /** What the operation may still append to the log. */
  function Reserve(o: Op): (r: int)
  {
    if o.Closed? then 0 else MAXOPBLOCKS - |o.appended|
  }

  function Total(ops: seq<Op>): (r: int)
  {
    if ops == [] then 0 else Reserve(ops[0]) + Total(ops[1..])
  }

  function CountOpen(ops: seq<Op>): (r: nat)
  {
    if ops == [] then 0 else (if ops[0].Open? then 1 else 0) + CountOpen(ops[1..])
  }

  // ----- the steps

  /** begin_op got past both of its waits. */
  ghost predicate Begin(s: State, s': State, p: nat)
  {
    && s.State? && p < |s.ops| && s.ops[p].Closed?
    && !s.committing && |s.lh| + (s.outstanding + 1) * MAXOPBLOCKS <= LOGBLOCKS
    && s' == s.(outstanding := s.outstanding + 1, ops := s.ops[p := Open({}, {})])
  }

  /** The state after log_write(b): both panics, absorption, or an append. */
  function LogWrite(s: State, p: nat, b: Word): (r: State)
    requires s.State? && p < |s.ops| && s.ops[p].Open?
  {
    if |s.lh| >= LOGBLOCKS then Panicked
    else if s.outstanding < 1 then Panicked
    else if b in s.lh then s.(ops := s.ops[p := s.ops[p].(written := s.ops[p].written + {b})])
    else s.(lh := s.lh + [b],
            ops := s.ops[p := Open(s.ops[p].written + {b}, s.ops[p].appended + {b})])
  }

  /** The state after the locked region of end_op; the last operation out starts a commit. */
  function EndOp(s: State, p: nat): (r: State)
    requires s.State? && p < |s.ops| && s.ops[p].Open?
  {
    if s.outstanding < 1 || s.committing then Panicked
    else s.(outstanding := s.outstanding - 1, committing := s.outstanding == 1, ops := s.ops[p := Closed])
  }

  /** The committer has emptied the log and clears `committing`. */
  ghost predicate CommitDone(s: State, s': State)
  {
    s.State? && s.committing && s' == s.(lh := [], committing := false)
  }

  /** One step.  `limit` bounds how many distinct blocks an operation may have logged before a
      further call of log_write. */
  ghost predicate Step(s: State, s': State, limit: nat)
  {
    || (exists p :: Begin(s, s', p))
    || (exists p, b: Word :: LogWriteStep(s, s', p, b, limit))
    || (exists p :: EndStep(s, s', p))
    || CommitDone(s, s')
  }

  ghost predicate LogWriteStep(s: State, s': State, p: nat, b: Word, limit: nat)
  {
    && s.State? && p < |s.ops| && s.ops[p].Open?
    && |s.ops[p].written| <= limit && |s.ops[p].written + {b}| <= MAXOPBLOCKS
    && s' == LogWrite(s, p, b)
  }

  ghost predicate EndStep(s: State, s': State, p: nat)
  {
    s.State? && p < |s.ops| && s.ops[p].Open? && s' == EndOp(s, p)
  }

  ghost predicate Init(s: State)
  {
    s.State? && s.lh == [] && s.outstanding == 0 && !s.committing && forall p :: 0 <= p < |s.ops| ==> s.ops[p].Closed?
  }

  ghost predicate Run(t: seq<State>, limit: nat)
  {
    && t != [] && Init(t[0])
    && forall i :: 0 <= i < |t| - 1 ==> Step(t[i], t[i + 1], limit)
  }

  // ----- the invariant

  ghost predicate OpOk(o: Op, lh: seq<Word>)
  {
    o.Open? ==> o.appended <= o.written && |o.written| <= MAXOPBLOCKS && forall b :: b in o.appended ==> b in lh
  }

  /** The log and everything the open operations may still append fit; nobody logs during a commit. */
  ghost predicate Inv(s: State)
  {
    && s.State?
    && s.outstanding == CountOpen(s.ops)
    && |s.lh| + Total(s.ops) <= LOGBLOCKS
    && (s.committing ==> s.outstanding == 0) && (s.outstanding == 0 && s.lh != [] ==> s.committing)
    && (forall i, j :: 0 <= i < j < |s.lh| ==> s.lh[i] != s.lh[j])
    && (forall p :: 0 <= p < |s.ops| ==> OpOk(s.ops[p], s.lh))
  }

  lemma {:induction false} TotalUpdate(ops: seq<Op>, p: nat, o: Op)
    requires p < |ops|
    ensures Total(ops[p := o]) == Total(ops) - Reserve(ops[p]) + Reserve(o)
    ensures CountOpen(ops[p := o]) == CountOpen(ops) - (if ops[p].Open? then 1 else 0) + (if o.Open? then 1 else 0)
  {
    if p > 0 {
      assert ops[p := o][1..] == ops[1..][p - 1 := o];
      TotalUpdate(ops[1..], p - 1, o);
    } else {
      assert ops[p := o][1..] == ops[1..];
    }
  }

  lemma SubsetCard(a: set<nat>, b: set<nat>)
    requires a <= b
    ensures |a| <= |b|
  {
    assert b == a + (b - a);
  }

  /** Every open operation still fits, so the total is at most what begin_op reserved. */
  lemma {:induction false} TotalBounds(ops: seq<Op>, lh: seq<Word>)
    requires forall p :: 0 <= p < |ops| ==> OpOk(ops[p], lh)
    ensures 0 <= Total(ops) <= MAXOPBLOCKS * CountOpen(ops)
  {
    if ops != [] {
      assert OpOk(ops[0], lh);
      if ops[0].Open? {
        SubsetCard(ops[0].appended, ops[0].written);
      }
      TotalBounds(ops[1..], lh);
    }
  }

  lemma {:induction false} TotalAtLeast(ops: seq<Op>, lh: seq<Word>, p: nat)
    requires p < |ops| && forall p :: 0 <= p < |ops| ==> OpOk(ops[p], lh)
    ensures Total(ops) >= Reserve(ops[p])
    ensures ops[p].Open? ==> CountOpen(ops) > 0
  {
    assert forall p :: 0 <= p < |ops[1..]| ==> ops[1..][p] == ops[p + 1];
    TotalBounds(ops[1..], lh);
    if p > 0 {
      TotalAtLeast(ops[1..], lh, p - 1);
      if ops[0].Open? {
        assert OpOk(ops[0], lh);
        SubsetCard(ops[0].appended, ops[0].written);
      }
    }
  }

  lemma BeginInv(s: State, s': State, p: nat)
    requires Inv(s) && Begin(s, s', p)
    ensures Inv(s') && CountOpen(s'.ops) == CountOpen(s.ops) + 1
  {
    TotalBounds(s.ops, s.lh);
    TotalUpdate(s.ops, p, Open({}, {}));
  }

  /** log_write panics exactly when the log is full, and then every open operation, the caller
      included, has already appended MAXOPBLOCKS blocks; otherwise the invariant is kept. */
  lemma LogWriteExact(s: State, s': State, p: nat, b: Word)
    requires Inv(s) && LogWriteStep(s, s', p, b, MAXOPBLOCKS)
    ensures s'.Panicked? <==> |s.lh| == LOGBLOCKS
    ensures !s'.Panicked? ==> Inv(s')
    ensures s'.Panicked? ==> |s.ops[p].written| == MAXOPBLOCKS
  {
    hide Inv, OpOk;
    RoomLeft(s, p);
    if |s.lh| < LOGBLOCKS {
      if b in s.lh {
        AbsorbInv(s, p, b);
      } else {
        AppendInv(s, p, b);
      }
    }
  }

  /** What an open operation may still append fits the log. */
  lemma RoomLeft(s: State, p: nat)
    requires Inv(s) && p < |s.ops| && s.ops[p].Open?
    ensures |s.ops[p].appended| <= |s.ops[p].written| <= MAXOPBLOCKS && s.outstanding > 0
    ensures |s.lh| + MAXOPBLOCKS - |s.ops[p].appended| <= LOGBLOCKS
  {
    var o := s.ops[p];
    assert OpOk(o, s.lh);
    SubsetCard(o.appended, o.written);
    TotalAtLeast(s.ops, s.lh, p);
  }

  lemma AbsorbInv(s: State, p: nat, b: Word)
    requires Inv(s) && p < |s.ops| && s.ops[p].Open? && b in s.lh && |s.ops[p].written + {b}| <= MAXOPBLOCKS
    ensures Inv(s.(ops := s.ops[p := s.ops[p].(written := s.ops[p].written + {b})]))
  {
    assert OpOk(s.ops[p], s.lh);
    TotalUpdate(s.ops, p, s.ops[p].(written := s.ops[p].written + {b}));
  }

  lemma AppendInv(s: State, p: nat, b: Word)
    requires Inv(s) && p < |s.ops| && s.ops[p].Open? && b !in s.lh && |s.ops[p].written + {b}| <= MAXOPBLOCKS
    requires |s.ops[p].appended| <= MAXOPBLOCKS && s.outstanding > 0
    ensures var o := s.ops[p];
            Inv(s.(lh := s.lh + [b], ops := s.ops[p := Open(o.written + {b}, o.appended + {b})]))
  {
    var o := s.ops[p];
    assert OpOk(o, s.lh);
    assert b !in o.appended;
    TotalUpdate(s.ops, p, Open(o.written + {b}, o.appended + {b}));
    forall q | 0 <= q < |s.ops| && q != p ensures OpOk(s.ops[q], s.lh + [b]) {
      assert OpOk(s.ops[q], s.lh);
    }
  }

  /** A block that was logged is in the log, once, and everything else in the log as it was. */
  lemma LogWriteHolds(s: State, s': State, p: nat, b: Word)
    requires Inv(s) && LogWriteStep(s, s', p, b, MAXOPBLOCKS) && s'.State?
    ensures b in s'.lh && s'.lh == (if b in s.lh then s.lh else s.lh + [b]) && b in s'.ops[p].written
    ensures |s'.ops| == |s.ops| && forall q :: 0 <= q < |s.ops| && q != p ==> s'.ops[q] == s.ops[q]
  {
    hide Inv;
  }

  /** The last operation out starts a commit, and no other does; what is logged stays in the log. */
  lemma EndInv(s: State, s': State, p: nat)
    requires Inv(s) && EndStep(s, s', p)
    ensures Inv(s') && s'.lh == s.lh && CountOpen(s'.ops) == CountOpen(s.ops) - 1
    ensures s'.committing <==> CountOpen(s'.ops) == 0
  {
    assert OpOk(s.ops[p], s.lh);
    SubsetCard(s.ops[p].appended, s.ops[p].written);
    TotalAtLeast(s.ops, s.lh, p);
    TotalUpdate(s.ops, p, Closed);
  }

  lemma {:induction false} NoneOpen(ops: seq<Op>, p: nat)
    requires p < |ops| && CountOpen(ops) == 0
    ensures ops[p].Closed?
  {
    if p > 0 {
      NoneOpen(ops[1..], p - 1);
    }
  }

  lemma OthersClosed(ops: seq<Op>, p: nat)
    requires p < |ops|
    ensures CountOpen(ops[p := Closed]) == 0 <==> forall q :: 0 <= q < |ops| ==> q == p || ops[q].Closed?
  {
    var r := ops[p := Closed];
    AllClosed(r);
    if forall q :: 0 <= q < |ops| ==> q == p || ops[q].Closed? {
      assert forall q :: 0 <= q < |r| ==> r[q].Closed?;
    } else {
      var q :| 0 <= q < |ops| && q != p && ops[q].Open?;
      assert r[q].Open?;
    }
  }

  lemma {:induction false} AllClosed(ops: seq<Op>)
    ensures CountOpen(ops) == 0 <==> forall p :: 0 <= p < |ops| ==> ops[p].Closed?
  {
    if ops != [] {
      AllClosed(ops[1..]);
      assert forall p :: 0 < p < |ops| ==> ops[p] == ops[1..][p - 1];
    }
  }

  lemma CommitDoneInv(s: State, s': State)
    requires Inv(s) && CommitDone(s, s')
    ensures Inv(s')
  {
    TotalBounds(s.ops, s.lh);
    forall p | 0 <= p < |s.ops| ensures OpOk(s'.ops[p], []) {
      NoneOpen(s.ops, p);
    }
  }

  lemma StepInv(s: State, s': State)
    requires Inv(s) && Step(s, s', MAXOPBLOCKS - 1)
    ensures Inv(s')
  {
    var limit := MAXOPBLOCKS - 1;
    if p :| Begin(s, s', p) {
      BeginInv(s, s', p);
    } else if p, b: Word :| LogWriteStep(s, s', p, b, limit) {
      LogWriteExact(s, s', p, b);
    } else if p :| EndStep(s, s', p) {
      EndInv(s, s', p);
    } else {
      CommitDoneInv(s, s');
    }
  }

  lemma {:induction false} InitTotal(ops: seq<Op>)
    requires forall p :: 0 <= p < |ops| ==> ops[p].Closed?
    ensures Total(ops) == CountOpen(ops) == 0
  {
    if ops != [] {
      InitTotal(ops[1..]);
    }
  }

  /** Log space: in every interleaving in which each operation has logged fewer than MAXOPBLOCKS distinct
      blocks whenever it calls log_write, no panic of log.c is reached and the log never overflows. */
  lemma {:induction false} LogSpaceSafe(t: seq<State>, k: nat)
    requires Run(t, MAXOPBLOCKS - 1) && k < |t|
    ensures Inv(t[k])
  {
    if k == 0 {
      InitTotal(t[0].ops);
    } else {
      LogSpaceSafe(t, k - 1);
      assert Step(t[k - 1], t[k - 1 + 1], MAXOPBLOCKS - 1);
      StepInv(t[k - 1], t[k]);
    }
  }

  // ----- nothing is left uncommitted, and nobody is left waiting

  /** In every reachable state in which no operation is open, what has been logged is being committed. */
  lemma CommitUnderWay(t: seq<State>, k: nat)
    requires Run(t, MAXOPBLOCKS - 1) && k < |t|
    ensures t[k].State? && (CountOpen(t[k].ops) == 0 && t[k].lh != [] ==> t[k].committing)
    ensures t[k].committing ==> CountOpen(t[k].ops) == 0
  {
    LogSpaceSafe(t, k);
  }

  /** begin_op gets past its waits. */
  predicate Admits(s: State)
  {
    s.State? && !s.committing && |s.lh| + (s.outstanding + 1) * MAXOPBLOCKS <= LOGBLOCKS
  }

  /** In every reachable state begin_op admits its caller, or an operation is open that will end, or a commit is
      under way that will. */
  lemma NobodyStuck(t: seq<State>, k: nat)
    requires Run(t, MAXOPBLOCKS - 1) && k < |t|
    ensures t[k].State? && (Admits(t[k]) || CountOpen(t[k].ops) > 0 || t[k].committing)
  {
    LogSpaceSafe(t, k);
  }

  /** A step after which begin_op admits although it did not before is the end of a commit, or the end of an
      operation that is not the last: the two places that call wakeup(&log). */
  lemma WaitersWoken(s: State, s': State)
    requires Inv(s) && Step(s, s', MAXOPBLOCKS - 1) && !Admits(s) && Admits(s')
    ensures CommitDone(s, s') || exists p :: EndStep(s, s', p) && s.outstanding > 1
  {
    var limit := MAXOPBLOCKS - 1;
    if p :| Begin(s, s', p) {
      assert false;
    } else if p, b: Word :| LogWriteStep(s, s', p, b, limit) {
      LogWriteExact(s, s', p, b);
    } else if p :| EndStep(s, s', p) {
      EndInv(s, s', p);
    }
  }

  // ----- "at most MAXOPBLOCKS blocks per operation" alone is not enough

  function Nums(m: nat): (r: seq<Word>)
    requires m <= LOGBLOCKS
    ensures |r| == m && forall i :: 0 <= i < m ==> r[i] == i
  {
    seq(m, i requires 0 <= i < m => i)
  }

  predicate Between(lo: nat, b: nat, hi: nat) { lo <= b < hi }

  ghost function Upto(lo: nat, hi: nat): (r: set<nat>)
    requires lo <= hi
  {
    set b: nat | lo <= b < hi && Between(lo, b, hi)
  }

  lemma {:induction false} UptoCard(lo: nat, hi: nat)
    requires lo <= hi
    ensures |Upto(lo, hi)| == hi - lo
    decreases hi
  {
    if lo < hi {
      assert Upto(lo, hi) == Upto(lo, hi - 1) + {hi - 1};
      UptoCard(lo, hi - 1);
    }
  }

  /** Operation q of three after m blocks were logged in turn, ten by each operation. */
  ghost function FullOp(m: nat, q: nat): (o: Op)
    requires q < 3
  {
    var lo := q * MAXOPBLOCKS;
    var hi := if m < lo then lo else if m < lo + MAXOPBLOCKS then m else lo + MAXOPBLOCKS;
    Open(Upto(lo, hi), Upto(lo, hi))
  }

  ghost function Filled(m: nat): (s: State)
    requires m <= LOGBLOCKS
  {
    State(Nums(m), 3, false, [FullOp(m, 0), FullOp(m, 1), FullOp(m, 2)])
  }

  ghost function Opened(m: nat): (s: State)
    requires m <= 3
  {
    State([], m, false, seq(3, p => if p < m then Open({}, {}) else Closed))
  }

  lemma FilledOps(m: nat)
    requires m < LOGBLOCKS
    ensures var p := m / MAXOPBLOCKS; Filled(m).ops[p := FullOp(m + 1, p)] == Filled(m + 1).ops
  {
    var p := m / MAXOPBLOCKS;
    forall q | 0 <= q < 3 && q != p ensures FullOp(m, q) == FullOp(m + 1, q) {
    }
  }

  lemma FilledStep(m: nat)
    requires m < LOGBLOCKS
    ensures Step(Filled(m), Filled(m + 1), MAXOPBLOCKS)
  {
    hide Filled, Upto, FullOp;
    var p := m / MAXOPBLOCKS;
    FilledOps(m);
    FilledLog(m);
    FullOpGrows(m, p);
    assert LogWriteStep(Filled(m), Filled(m + 1), p, m, MAXOPBLOCKS);
  }

  lemma FilledLog(m: nat)
    requires m < LOGBLOCKS
    ensures var s, r := Filled(m), Filled(m + 1);
            && s.State? && r.State? && |s.ops| == 3 && s.ops[m / MAXOPBLOCKS] == FullOp(m, m / MAXOPBLOCKS)
            && r.lh == s.lh + [m] && |s.lh| == m && m !in s.lh && r.outstanding == s.outstanding == 3
            && r.committing == s.committing
  {
  }

  lemma FullOpGrows(m: nat, p: nat)
    requires p * MAXOPBLOCKS <= m < (p + 1) * MAXOPBLOCKS && p < 3
    ensures var o, o' := FullOp(m, p), FullOp(m + 1, p);
            o.Open? && o' == Open(o.written + {m}, o.appended + {m}) && |o.written| < |o'.written| <= MAXOPBLOCKS
  {
    UptoCard(p * MAXOPBLOCKS, m);
    UptoCard(p * MAXOPBLOCKS, m + 1);
    assert Upto(p * MAXOPBLOCKS, m) + {m} == Upto(p * MAXOPBLOCKS, m + 1);
  }

  lemma OpenedStep(m: nat)
    requires m < 3
    ensures Step(Opened(m), Opened(m + 1), MAXOPBLOCKS)
  {
    assert Opened(m).ops[m := Open({}, {})] == Opened(m + 1).ops;
    assert Begin(Opened(m), Opened(m + 1), m);
  }

  /** The state after i steps of the run below. */
  ghost function Overrun(i: nat): (s: State)
  {
    if i < 3 then Opened(i) else if i <= LOGBLOCKS + 3 then Filled(i - 3) else Panicked
  }

  lemma OpenedIsFilled()
    ensures Opened(3) == Filled(0)
  {
    forall q | 0 <= q < 3 ensures Opened(3).ops[q] == Filled(0).ops[q] {
      assert FullOp(0, q) == Open({}, {});
    }
    assert Opened(3).ops == Filled(0).ops;
    assert Opened(3).lh == Filled(0).lh;
  }

  lemma PanicStep()
    ensures Step(Filled(LOGBLOCKS), Panicked, MAXOPBLOCKS)
  {
    UptoCard(0, MAXOPBLOCKS);
    assert Upto(0, MAXOPBLOCKS) + {0} == Upto(0, MAXOPBLOCKS);
    assert LogWriteStep(Filled(LOGBLOCKS), Panicked, 0, 0, MAXOPBLOCKS);
  }

  lemma OverrunStep(i: nat)
    requires i <= LOGBLOCKS + 3
    ensures Step(Overrun(i), Overrun(i + 1), MAXOPBLOCKS)
  {
    OpenedIsFilled();
    if i < 3 {
      OpenedStep(i);
    } else if i < LOGBLOCKS + 3 {
      FilledStep(i - 3);
    } else {
      PanicStep();
    }
  }

  /** Three operations log ten distinct blocks each, then one logs a block again: log_write panics,
      because it tests for a full log before it looks for the block. */
  lemma MaxOpBlocksNotEnough()
    ensures exists t :: Run(t, MAXOPBLOCKS) && t[|t| - 1] == Panicked
  {
    var t := seq(LOGBLOCKS + 5, i requires 0 <= i < LOGBLOCKS + 5 => Overrun(i));
    forall i | 0 <= i < |t| - 1 ensures Step(t[i], t[i + 1], MAXOPBLOCKS) {
      OverrunStep(i);
    }
    assert Run(t, MAXOPBLOCKS);
  }
}
