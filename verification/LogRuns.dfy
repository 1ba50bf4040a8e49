/** Whole runs of kernel/log.c: one transaction after the other, a crash anywhere, and any number of crashes while
    recovering. */
module LogRuns {
  import opened Blocks
  import opened LogDisk

  /** What transactions do: disks[k] is the image and views[k] what readers see before the k-th commit, heads[k] the
      blocks it logged.  Between commits only logged blocks change. */
  ghost predicate Commits(start: nat, disks: seq<Image>, views: seq<Image>, heads: seq<seq<Word>>)
  {
    && |disks| == |views| == |heads| + 1
    && start < |disks[0]| && HeadLen(disks[0], start) == 0 && HomeSame(start, disks[0], views[0])
    && forall k :: 0 <= k < |heads| ==> CommitStep(start, disks[k], views[k], heads[k], disks[k + 1], views[k + 1])
  }

  /** One transaction: its blocks logged, its commit complete. */
  ghost predicate CommitStep(start: nat, d: Image, v: Image, lh: seq<Word>, e: Image, w: Image)
  {
    && GoodHead(d, start, lh) && |v| == |w| == |d|
    && (forall b :: 0 <= b < |d| && Home(start, b) && w[b] != v[b] ==> b in lh)
    && e == Complete(d, start, w, lh)
  }

  /** The disk when commit is through. */
  ghost function Complete(d: Image, start: nat, view: Image, lh: seq<Word>): (r: Image)
    requires GoodHead(d, start, lh) && |view| == |d|
  {
    var t := CommitTrace(d, start, view, lh);
    t[|t| - 1]
  }

  lemma CompleteIsRecover(d: Image, start: nat, view: Image, lh: seq<Word>)
    requires GoodHead(d, start, lh) && |view| == |d|
    ensures var c := Committed(d, start, view, lh);
            GoodDisk(c, start) && Complete(d, start, view, lh) == Recover(c, start) &&
                  HeadLen(Recover(c, start), start) == 0
  {
    CommittedHead(d, start, view, lh);
    var c := Committed(d, start, view, lh);
    ClearTwice(Install(c, start, lh, |lh|), start);
  }

  /** If before it the home blocks were what readers saw, they are again. */
  lemma StepHome(start: nat, d: Image, v: Image, lh: seq<Word>, e: Image, w: Image)
    requires CommitStep(start, d, v, lh, e, w) && HomeSame(start, d, v)
    ensures HomeSame(start, e, w) && start < |e| && HeadLen(e, start) == 0
  {
    CompleteIsRecover(d, start, w, lh);
    CommittedRecovers(d, start, w, lh);
    hide Committed, Recover;
  }

  lemma {:induction false} CommitsHome(start: nat, disks: seq<Image>, views: seq<Image>, heads: seq<seq<Word>>, k: nat)
    requires Commits(start, disks, views, heads) && k <= |heads|
    ensures HomeSame(start, disks[k], views[k]) && start < |disks[k]| && HeadLen(disks[k], start) == 0
  {
    if k > 0 {
      CommitsHome(start, disks, views, heads, k - 1);
      StepHome(start, disks[k - 1], views[k - 1], heads[k - 1], disks[k], views[k]);
    }
  }

  /** A crash after write j of the k-th commit, and then any number of recoveries of which only the last completes:
      the home blocks are what readers saw before the transaction if j is before the header write, and what they
      saw at its end from there on. */
  lemma RunAtomic(start: nat, disks: seq<Image>, views: seq<Image>, heads: seq<seq<Word>>, k: nat, j: nat,
                  ds: seq<Image>)
    requires Commits(start, disks, views, heads) && k < |heads|
    requires GoodHead(disks[k], start, heads[k]) && |views[k + 1]| == |disks[k]|
    requires j < |CommitTrace(disks[k], start, views[k + 1], heads[k])|
    requires CrashRun(ds, start) && ds[0] == CommitTrace(disks[k], start, views[k + 1], heads[k])[j]
    ensures GoodDisk(ds[|ds| - 1], start)
    ensures HomeSame(start, Recover(ds[|ds| - 1], start), if j < |heads[k]| then views[k] else views[k + 1])
  {
    CommitsHome(start, disks, views, heads, k);
    assert CommitStep(start, disks[k], views[k], heads[k], disks[k + 1], views[k + 1]);
    hide Commits;
    CrashAtomicityRun(disks[k], start, views[k + 1], heads[k], j, ds);
    hide CommitTrace, CrashRun, Recover;
  }

  /** A crash between two commits loses nothing that was committed. */
  lemma RunAtRest(start: nat, disks: seq<Image>, views: seq<Image>, heads: seq<seq<Word>>, k: nat, ds: seq<Image>)
    requires Commits(start, disks, views, heads) && k <= |heads|
    requires CrashRun(ds, start) && ds[0] == disks[k]
    ensures GoodDisk(ds[|ds| - 1], start) && HomeSame(start, Recover(ds[|ds| - 1], start), views[k])
  {
    CommitsHome(start, disks, views, heads, k);
    RecoverAfterAnyCrashes(ds, start);
    RecoverEmpty(disks[k], start);
  }

  lemma RecoverEmpty(d: Image, start: nat)
    requires GoodDisk(d, start) && HeadLen(d, start) == 0
    ensures HomeSame(start, Recover(d, start), d)
  {
    assert HeadOf(d, start) == [];
  }
}
