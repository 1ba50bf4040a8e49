/** The operations of one transaction running at once, each on an inode of its own. */
module FsTogether {
  import opened Blocks
  import opened Dinodes
  import opened FsState
  import opened FsContent
  import opened FsSteps
  import opened FileSystem
  import opened FsTrunc

  /** `busy` gives the operation under way on each inode that is locked by one. */
  datatype State = State(fs: Fs, busy: map<nat, Op>)

  datatype Step = Begin(i: nat) | On(i: nat, a: Act) | End(i: nat)

  ghost predicate Can(s: State, st: Step)
  {
    match st
    case Begin(i) => i in s.fs.inodes && i !in s.busy
    case On(i, a) => i in s.busy && CanDo(Local(s.fs, s.busy[i]), i, a)
    // the operation ends after its iupdate, with nothing half done
    case End(i) => i in s.busy && s.busy[i] == Op(Nothing, false) && i !in s.fs.cut
  }

  ghost function After(s: State, st: Step): (r: State)
    requires Can(s, st)
  {
    match st
    case Begin(i) => s.(busy := s.busy[i := Op(Nothing, false)])
    case On(i, a) => var l := Do(Local(s.fs, s.busy[i]), i, a); State(l.fs, s.busy[i := l.op])
    case End(i) => s.(busy := s.busy - {i})
  }

  /** The blocks allocated and not stored are those that operations hold, no two the same one. */
  ghost predicate HeldApart(s: State)
  {
    && (forall i :: i in s.busy ==> HeldOk(Local(s.fs, s.busy[i])))
    && (forall i, j :: i in s.busy && j in s.busy && i != j && HeldBlock(s.busy[i]) != 0 ==>
          HeldBlock(s.busy[i]) != HeldBlock(s.busy[j]))
    && (forall b :: b in s.fs.owner && s.fs.owner[b].Loose? ==> exists i :: i in s.busy && HeldBlock(s.busy[i]) == b)
  }

  /** Inodes that are not being worked on are in order, the others will be. */
  ghost predicate InOrder(s: State)
  {
    && (forall i: nat :: i < s.fs.lay.ninodes && i !in s.busy ==> CleanAt(s.fs, i))
    && (forall i :: i in s.busy ==> OpClean(Local(s.fs, s.busy[i]), i))
    && (forall i :: i in s.fs.cut ==> i in s.busy)
  }

  ghost predicate Ok(s: State)
  {
    Inv(s.fs) && HeldApart(s) && InOrder(s)
  }

  /** What another operation holds it still holds. */
  lemma HeldElsewhere(s: State, i: nat, g: Fs, op: Op, j: nat)
    requires Inv(s.fs) && HeldApart(s) && i in s.busy && j in s.busy && j != i
    requires LooseStep(s.fs, g, HeldBlock(s.busy[i]), HeldBlock(op))
    ensures HeldOk(Local(g, s.busy[j]))
  {
    assert HeldOk(Local(s.fs, s.busy[j]));
    ZeroNotLoose(s.fs);
    hide Inv;
    assert HeldBlock(s.busy[j]) != 0 ==> HeldBlock(s.busy[j]) != HeldBlock(s.busy[i]);
  }

  lemma HeldApartStep(s: State, i: nat, op: Op)
    requires HeldApart(s) && i in s.busy
    requires HeldBlock(op) == 0 || HeldBlock(op) == HeldBlock(s.busy[i]) || HeldBlock(op) !in s.fs.owner
    ensures var busy := s.busy[i := op];
            forall x, y :: x in busy && y in busy && x != y && HeldBlock(busy[x]) != 0 ==>
              HeldBlock(busy[x]) != HeldBlock(busy[y])
  {
    assert forall j :: j in s.busy ==> HeldOk(Local(s.fs, s.busy[j]));
  }

  lemma StillHeld(s: State, i: nat, g: Fs, op: Op, b: nat)
    requires HeldApart(s) && i in s.busy && b in g.owner && g.owner[b].Loose?
    requires LooseStep(s.fs, g, HeldBlock(s.busy[i]), HeldBlock(op))
    ensures var busy := s.busy[i := op]; exists j :: j in busy && HeldBlock(busy[j]) == b
  {
    var busy := s.busy[i := op];
    if b == HeldBlock(op) {
      assert i in busy && HeldBlock(busy[i]) == b;
    } else {
      var j :| j in s.busy && HeldBlock(s.busy[j]) == b;
      assert j in busy && HeldBlock(busy[j]) == b;
    }
  }

  lemma HeldStep(s: State, i: nat, g: Fs, op: Op)
    requires Inv(s.fs) && HeldApart(s) && i in s.busy && HeldOk(Local(g, op))
    requires LooseStep(s.fs, g, HeldBlock(s.busy[i]), HeldBlock(op))
    requires HeldBlock(op) == 0 || HeldBlock(op) == HeldBlock(s.busy[i]) || HeldBlock(op) !in s.fs.owner
    ensures HeldApart(State(g, s.busy[i := op]))
  {
    hide Inv, LooseStep, HeldOk;
    var r := State(g, s.busy[i := op]);
    forall j | j in r.busy ensures HeldOk(Local(g, r.busy[j])) {
      if j != i {
        HeldElsewhere(s, i, g, op, j);
      }
    }
    HeldApartStep(s, i, op);
    forall b | b in g.owner && g.owner[b].Loose? ensures exists j :: j in r.busy && HeldBlock(r.busy[j]) == b {
      StillHeld(s, i, g, op, b);
    }
  }

  lemma OrderStep(s: State, i: nat, g: Fs, op: Op)
    requires InOrder(s) && i in s.busy && Shape(s.fs) && Elsewhere(s.fs, g, i) && OpClean(Local(g, op), i)
    ensures InOrder(State(g, s.busy[i := op]))
  {
    hide Dinode, CleanAt, Resolve;
    var r := State(g, s.busy[i := op]);
    forall x: nat | x < g.lay.ninodes && x !in r.busy ensures CleanAt(g, x) {
      ElsewhereClean(s.fs, g, i, x);
    }
    forall x | x in r.busy && x != i ensures OpClean(Local(g, r.busy[x]), x) {
      assert OpClean(Local(s.fs, s.busy[x]), x);
      if !s.busy[x].dirty && x !in s.fs.cut {
        ElsewhereClean(s.fs, g, i, x);
      }
    }
  }

  /** The block an operation comes to hold is the one it held, or was free. */
  lemma NewHeld(l: Local, i: nat, a: Act)
    requires Inv(l.fs) && CanDo(l, i, a)
    ensures var b := HeldBlock(Do(l, i, a).op); b == 0 || b == HeldBlock(l.op) || b !in l.fs.owner
  {
    hide Resolve, Backed;
  }

  lemma OnOk(s: State, i: nat, a: Act)
    requires Ok(s) && Can(s, On(i, a))
    ensures Ok(After(s, On(i, a))) && Logged(s.fs, After(s, On(i, a)).fs)
    ensures Elsewhere(s.fs, After(s, On(i, a)).fs, i)
  {
    var l := Local(s.fs, s.busy[i]);
    assert Shape(s.fs);
    hide Inv, LooseStep, Elsewhere, CanDo, Do, Logged, HeldOk, OpClean;
    assert HeldOk(l) && OpClean(l, i);
    var r := Do(l, i, a);
    DoGoes(l, i, a);
    DoClean(l, i, a);
    NewHeld(l, i, a);
    HeldStep(s, i, r.fs, r.op);
    OrderStep(s, i, r.fs, r.op);
  }

  lemma BeginHeld(s: State, i: nat)
    requires HeldApart(s) && Can(s, Begin(i))
    ensures HeldApart(After(s, Begin(i)))
  {
    hide HeldOk;
    var r := After(s, Begin(i));
    assert HeldOk(Local(s.fs, Op(Nothing, false))) by { NothingHeld(s.fs); }
    forall b | b in r.fs.owner && r.fs.owner[b].Loose? ensures exists j :: j in r.busy && HeldBlock(r.busy[j]) == b {
      var j :| j in s.busy && HeldBlock(s.busy[j]) == b;
      assert j in r.busy && HeldBlock(r.busy[j]) == b;
    }
  }

  lemma NothingHeld(fs: Fs)
    ensures HeldOk(Local(fs, Op(Nothing, false)))
  {
  }

  lemma BeginOrder(s: State, i: nat)
    requires InOrder(s) && Shape(s.fs) && Can(s, Begin(i)) && InUse(s.fs.inodes[i])
    ensures InOrder(After(s, Begin(i)))
  {
    assert i < s.fs.lay.ninodes;
    hide CleanAt, Shape;
    assert CleanAt(s.fs, i);
  }

  lemma BeginOk(s: State, i: nat)
    requires Ok(s) && Can(s, Begin(i)) && InUse(s.fs.inodes[i])
    ensures Ok(After(s, Begin(i)))
  {
    assert Shape(s.fs);
    hide Inv, HeldApart, InOrder;
    BeginHeld(s, i);
    BeginOrder(s, i);
  }

  lemma EndHeld(s: State, i: nat)
    requires Inv(s.fs) && HeldApart(s) && Can(s, End(i))
    ensures HeldApart(After(s, End(i)))
  {
    var r := After(s, End(i));
    ZeroNotLoose(s.fs);
    hide Inv, HeldOk;
    forall b | b in r.fs.owner && r.fs.owner[b].Loose? ensures exists j :: j in r.busy && HeldBlock(r.busy[j]) == b {
      var j :| j in s.busy && HeldBlock(s.busy[j]) == b;
      assert j in r.busy && HeldBlock(r.busy[j]) == b;
    }
  }

  lemma EndOrder(s: State, i: nat)
    requires InOrder(s) && Can(s, End(i))
    ensures InOrder(After(s, End(i)))
  {
    hide CleanAt;
    assert OpClean(Local(s.fs, s.busy[i]), i);
  }

  lemma EndOk(s: State, i: nat)
    requires Ok(s) && Can(s, End(i))
    ensures Ok(After(s, End(i)))
  {
    hide Inv, HeldApart, InOrder;
    EndHeld(s, i);
    EndOrder(s, i);
  }

  /** Every inode in use has a type, also while it is worked on. */
  lemma StaysInUse(s: State, i: nat)
    requires Ok(s) && i in s.fs.inodes
    ensures InUse(s.fs.inodes[i])
  {
    assert i < s.fs.lay.ninodes;
    hide Inv, Backed, Dinode;
    if i in s.busy {
      assert OpClean(Local(s.fs, s.busy[i]), i);
    } else {
      assert CleanAt(s.fs, i);
    }
  }

  lemma StepOk(s: State, st: Step)
    requires Ok(s) && Can(s, st)
    ensures Ok(After(s, st)) && Logged(s.fs, After(s, st).fs)
  {
    hide Ok, CanDo, Do, Logged;
    match st
    case Begin(i) =>
      StaysInUse(s, i);
      BeginOk(s, i);
      LoggedNone(s.fs);
    case On(i, a) => OnOk(s, i, a);
    case End(i) =>
      EndOk(s, i);
      LoggedNone(s.fs);
  }

  // ----- runs

  ghost predicate Legal(s: State, run: seq<Step>)
    decreases |run|
  {
    run == [] || (Can(s, run[0]) && Legal(After(s, run[0]), run[1..]))
  }

  ghost function Last(s: State, run: seq<Step>): (r: State)
    requires Legal(s, run)
    decreases |run|
  {
    if run == [] then s else Last(After(s, run[0]), run[1..])
  }

  /** However the operations interleave: ownership stays exact, blocks in flight are held by one operation each,
      inodes not worked on are in order, and every block that has changed has been logged. */
  lemma {:induction false} RunOk(s: State, run: seq<Step>)
    requires Ok(s) && Legal(s, run)
    ensures Ok(Last(s, run)) && Logged(s.fs, Last(s, run).fs)
    decreases |run|
  {
    hide Ok, Can, After, Logged;
    if run == [] {
      LoggedNone(s.fs);
    } else {
      StepOk(s, run[0]);
      RunOk(After(s, run[0]), run[1..]);
      LoggedTrans(s.fs, After(s, run[0]).fs, Last(s, run).fs);
    }
  }

  /** Operations on other inodes do not change a file. */
  lemma {:induction false} RunIsolated(s: State, run: seq<Step>, x: nat)
    requires Ok(s) && Legal(s, run) && x in s.fs.inodes && x !in s.busy
    requires forall k :: 0 <= k < |run| ==> run[k].i != x
    ensures x !in Last(s, run).busy && SameFile(s.fs, Last(s, run).fs, x)
    ensures x in Last(s, run).fs.inodes && Last(s, run).fs.inodes[x] == s.fs.inodes[x]
    decreases |run|
  {
    hide Ok, Logged, SameFile, Can, After;
    NotBusy(s, x);
    if run == [] {
      SameFileSelf(s.fs, x);
    } else {
      var r := After(s, run[0]);
      StepOk(s, run[0]);
      StepIsolated(s, run[0], x);
      hide Backed;
      RunIsolated(r, run[1..], x);
      SameFileTrans(s.fs, r.fs, Last(s, run).fs, x);
    }
  }

  lemma NotBusy(s: State, x: nat)
    requires Ok(s) && x in s.fs.inodes && x !in s.busy
    ensures Backed(s.fs, x, s.fs.inodes[x].size)
  {
    assert x < s.fs.lay.ninodes;
    assert CleanAt(s.fs, x);
  }

  lemma SameFileSelf(fs: Fs, x: nat)
    requires x in fs.inodes && Backed(fs, x, fs.inodes[x].size)
    ensures SameFile(fs, fs, x)
  {
  }

  lemma StepIsolated(s: State, st: Step, x: nat)
    requires Ok(s) && Can(s, st) && x in s.fs.inodes && x !in s.busy && st.i != x
    requires Backed(s.fs, x, s.fs.inodes[x].size)
    ensures var r := After(s, st); x !in r.busy && SameFile(s.fs, r.fs, x)
    ensures var r := After(s, st); x in r.fs.inodes && r.fs.inodes[x] == s.fs.inodes[x]
  {
    hide Ok, CanDo, Do, Elsewhere, Backed;
    if st.On? {
      OnOk(s, st.i, st.a);
      ElsewhereContent(s.fs, After(s, st).fs, st.i, x);
    } else {
      SameFileSelf(s.fs, x);
    }
  }

  // ----- a transaction

  lemma StartOk(f: Fs)
    requires Good(f) && Synced(f)
    ensures Ok(State(f, map[]))
  {
    var s := State(f, map[]);
    forall i: nat | i < f.lay.ninodes ensures CleanAt(f, i) {
      assert SyncedAt(f, i);
    }
  }

  /** When no operation is under way the file system is good again. */
  lemma EndGood(s: State)
    requires Ok(s) && s.busy == map[]
    ensures Good(s.fs) && Synced(s.fs)
  {
    hide Backed, Dinode, Resolve, Used;
    assert Shape(s.fs);
    NoneLoose(s);
    assert s.fs.cut == map[] by { assert forall i :: i !in s.fs.cut; }
    hide Inv;
    forall i: nat | i < s.fs.lay.ninodes ensures SyncedAt(s.fs, i) {
      assert CleanAt(s.fs, i);
    }
    forall i | i in s.fs.inodes ensures Backed(s.fs, i, s.fs.inodes[i].size) {
      assert CleanAt(s.fs, i);
    }
  }

  lemma NoneLoose(s: State)
    requires Ok(s) && s.busy == map[]
    ensures forall b :: b in s.fs.owner ==> !s.fs.owner[b].Loose?
  {
    hide Inv, CleanAt;
  }

  /** Any number of operations from begin_op to end_op, in any interleaving, from a good file system to one. */
  ghost predicate Together(f: Fs, run: seq<Step>, g: Fs)
  {
    Legal(State(f, map[]), run) && Last(State(f, map[]), run) == State(g, map[])
  }

  lemma TogetherGood(f: Fs, run: seq<Step>, g: Fs)
    requires Good(f) && Synced(f) && Together(f, run, g)
    ensures Good(g) && Synced(g) && g.lay == f.lay && Logged(f, g)
  {
    hide Good, Synced, Ok, Logged, Legal, Last;
    StartOk(f);
    RunOk(State(f, map[]), run);
    EndGood(State(g, map[]));
    assert g.lay == f.lay by { RunLayout(State(f, map[]), run); }
  }

  lemma {:induction false} RunLayout(s: State, run: seq<Step>)
    requires Ok(s) && Legal(s, run)
    ensures Last(s, run).fs.lay == s.fs.lay
    decreases |run|
  {
    hide Ok, Logged, Can, After;
    if run != [] {
      StepOk(s, run[0]);
      StepLayout(s, run[0]);
      RunLayout(After(s, run[0]), run[1..]);
    }
  }

  lemma StepLayout(s: State, st: Step)
    requires Ok(s) && Can(s, st)
    ensures After(s, st).fs.lay == s.fs.lay
  {
    hide Ok, CanDo, Do, Logged;
    if st.On? {
      OnOk(s, st.i, st.a);
    }
  }

  // ----- the operations of the file system are such runs

  lemma {:induction false} RunBoth(s: State, a: seq<Step>, b: seq<Step>)
    requires Legal(s, a) && Legal(Last(s, a), b)
    ensures Legal(s, a + b) && Last(s, a + b) == Last(Last(s, a), b)
    decreases |a|
  {
    hide Can, After;
    if a == [] {
      assert a + b == b;
    } else {
      RunBoth(After(s, a[0]), a[1..], b);
      assert (a + b)[0] == a[0] && (a + b)[1..] == a[1..] + b;
    }
  }

  lemma RunOne(s: State, st: Step)
    requires Can(s, st)
    ensures Legal(s, [st]) && Last(s, [st]) == After(s, st)
  {
    hide Can, After;
    assert [st][1..] == [];
  }

  function OnAll(i: nat, acts: seq<Act>): (run: seq<Step>) { seq(|acts|, k requires 0 <= k < |acts| => On(i, acts[k])) }

  lemma {:induction false} ActsRun(s: State, i: nat, acts: seq<Act>)
    requires i in s.busy && CanAll(Local(s.fs, s.busy[i]), i, acts)
    ensures Legal(s, OnAll(i, acts))
    ensures var l := DoAll(Local(s.fs, s.busy[i]), i, acts); Last(s, OnAll(i, acts)) == State(l.fs, s.busy[i := l.op])
    decreases |acts|
  {
    hide CanDo, Do;
    if acts == [] {
      assert s.busy[i := s.busy[i]] == s.busy;
    } else {
      var r := After(s, On(i, acts[0]));
      ActsRun(r, i, acts[1..]);
      assert OnAll(i, acts)[1..] == OnAll(i, acts[1..]);
      var l := DoAll(Local(s.fs, s.busy[i]), i, acts);
      assert r.busy[i := l.op] == s.busy[i := l.op];
    }
  }

  /** A run of the machine beside whatever else is under way. */
  ghost predicate Reaches(s: State, r: State) { exists run: seq<Step> :: Legal(s, run) && Last(s, run) == r }

  lemma ReachesTrans(a: State, b: State, c: State)
    requires Reaches(a, b) && Reaches(b, c)
    ensures Reaches(a, c)
  {
    var p: seq<Step> :| Legal(a, p) && Last(a, p) == b;
    var q: seq<Step> :| Legal(b, q) && Last(b, q) == c;
    hide Legal, Last;
    RunBoth(a, p, q);
    assert Legal(a, p + q);
  }

  lemma ReachesOne(s: State, st: Step)
    requires Can(s, st)
    ensures Reaches(s, After(s, st))
  {
    hide Can, After, Legal, Last;
    RunOne(s, st);
    assert Legal(s, [st]);
  }

  /** A write or a truncation, as the file system performs it, is a run of steps between a begin_op and an end_op,
      whatever other operations are under way. */
  lemma PerformedReaches(s: State, g: Fs, i: nat)
    requires Performed(s.fs, g, i) && i in s.fs.inodes && i !in s.busy
    ensures Reaches(s, State(g, s.busy))
  {
    hide CanAll, DoAll, Legal, Last, Reaches, CanDo, SetSize;
    var m: Fs, n: Word :| EndsWith(s.fs, m, n, g, i);
    var acts: seq<Act> :| Leads(s.fs, m, i, acts);
    var o := Op(Nothing, false);
    var b := State(s.fs, s.busy[i := o]);
    ReachesOne(s, Begin(i));
    var op := LeadsReaches(b, m, i, acts);
    var c := State(m, b.busy[i := op]);
    UpdateReaches(c, i, n, g);
    var d := State(g, c.busy[i := o]);
    assert d.busy - {i} == s.busy;
    EndReaches(d, i);
    ReachesTrans(s, b, c);
    ReachesTrans(s, c, d);
    ReachesTrans(s, d, State(g, s.busy));
  }

  lemma LeadsReaches(b: State, m: Fs, i: nat, acts: seq<Act>) returns (op: Op)
    requires i in b.busy && b.busy[i] == Op(Nothing, false) && Leads(b.fs, m, i, acts)
    ensures op.held.Nothing? && Reaches(b, State(m, b.busy[i := op]))
  {
    hide CanAll, DoAll, Legal, Last, Reaches;
    DirtyOrNot(Local(b.fs, Op(Nothing, true)), Local(b.fs, b.busy[i]), i, acts);
    op := DoAll(Local(b.fs, b.busy[i]), i, acts).op;
    ActsRun(b, i, acts);
    ActsReach(b, State(m, b.busy[i := op]), i, acts);
  }

  lemma ActsReach(b: State, c: State, i: nat, acts: seq<Act>)
    requires Legal(b, OnAll(i, acts)) && Last(b, OnAll(i, acts)) == c
    ensures Reaches(b, c)
  {
  }

  lemma UpdateReaches(c: State, i: nat, n: Word, g: Fs)
    requires i in c.busy && c.busy[i].held.Nothing? && CanDo(Local(c.fs, Op(Nothing, true)), i, Update(n))
    requires g == SetSize(c.fs, i, n)
    ensures Reaches(c, State(g, c.busy[i := Op(Nothing, false)])) && i !in g.cut
  {
    hide Reaches, Backed, PutDinode;
    ReachesOne(c, On(i, Update(n)));
  }

  lemma EndReaches(d: State, i: nat)
    requires i in d.busy && d.busy[i] == Op(Nothing, false) && i !in d.fs.cut
    ensures Reaches(d, State(d.fs, d.busy - {i}))
  {
    hide Reaches;
    ReachesOne(d, End(i));
  }

  lemma TogetherNone(f: Fs)
    ensures Together(f, [], f)
  {
  }

  lemma TogetherBoth(a: Fs, p: seq<Step>, b: Fs, q: seq<Step>, c: Fs)
    requires Together(a, p, b) && Together(b, q, c)
    ensures Together(a, p + q, c)
  {
    hide Legal, Last;
    RunBoth(State(a, map[]), p, q);
  }

  /** So are operations one after the other, such as the calls of writei and itrunc. */
  lemma {:induction false} OneByOne(fs: seq<Fs>, on: seq<nat>)
    requires |fs| == |on| + 1
    requires forall k :: 0 <= k < |on| ==> Performed(fs[k], fs[k + 1], on[k]) && on[k] in fs[k].inodes
    ensures exists run: seq<Step> :: Together(fs[0], run, fs[|on|])
    decreases |on|
  {
    hide Performed, Legal, Last;
    if on == [] {
      TogetherNone(fs[0]);
      assert Together(fs[0], [], fs[0]);
    } else {
      var n := |on| - 1;
      OneByOne(fs[..n + 1], on[..n]);
      var run: seq<Step> :| Together(fs[0], run, fs[n]);
      PerformedReaches(State(fs[n], map[]), fs[n + 1], on[n]);
      var last: seq<Step> :| Together(fs[n], last, fs[n + 1]);
      TogetherBoth(fs[0], run, fs[n], last, fs[n + 1]);
    }
  }

  /** What the methods of the device promise is such an operation. */
  lemma WriteTogether(f0: Fs, f: Fs, i: nat, off: nat, src: seq<Byte>, copies: nat, tot: nat)
    requires WriteDone(f0, f, i, off, src, copies, tot)
    ensures exists run: seq<Step> :: Together(f0, run, f)
  {
    hide Wrote, Good, Performed;
    OneByOne([f0, f], [i]);
  }

  lemma TruncTogether(f0: Fs, f: Fs, i: nat)
    requires i in f0.inodes && Truncated(f0, f, i)
    ensures exists run: seq<Step> :: Together(f0, run, f)
  {
    hide TruncLogged, OnlyInode, Good, Performed, SameFile;
    OneByOne([f0, f], [i]);
  }
}
