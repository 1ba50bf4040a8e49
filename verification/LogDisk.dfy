/** What kernel/log.c does to the disk, as functions on disk images: the on-disk log, the states
    commit and recovery pass through block write by block write, and why a crash at any of them
    (and at any state of the recoveries that follow) is all or nothing. */
module LogDisk {
  import opened Blocks

  const MAXOPBLOCKS := 10
  const LOGBLOCKS := MAXOPBLOCKS * 3

  type Image = seq<Block>

  // ----- the log header

  /** The header block `write_head` makes from the one it read: stale entries past n stay. */
  function EncodeHead(b: Block, lh: seq<Word>): (r: Block)
    requires |lh| <= LOGBLOCKS
  {
    PutWords(SetWord(b, 0, |lh|), 1, lh, 0)
  }

  function HeadLen(d: Image, start: nat): (n: Word)
    requires start < |d|
  {
    WordAt(d[start], 0)
  }

  /** The committed block numbers, as `read_head` sees them. */
  function HeadOf(d: Image, start: nat): (lh: seq<Word>)
    requires start < |d| && HeadLen(d, start) <= LOGBLOCKS
    ensures |lh| == HeadLen(d, start)
  {
    seq(HeadLen(d, start), i requires 0 <= i < HeadLen(d, start) => WordAt(d[start], i + 1))
  }

  /** Reading a header back gives what was written: the count in the first word, the block numbers after it. */
  lemma HeadRoundTrip(d: Image, start: nat, lh: seq<Word>)
    requires start < |d| && |lh| <= LOGBLOCKS
    ensures var e := d[start := EncodeHead(d[start], lh)]; HeadLen(e, start) == |lh| && HeadOf(e, start) == lh
    ensures WordAt(EncodeHead(d[start], lh), 0) == |lh|
    ensures forall i :: 0 <= i < |lh| ==> WordAt(EncodeHead(d[start], lh), i + 1) == lh[i]
  {
    var b := SetWord(d[start], 0, |lh|);
    WordOfSetWord(d[start], 0, |lh|, 0);
    WordOfPutWords(b, 1, lh, 0, 0);
    forall i | 0 <= i < |lh| ensures WordAt(EncodeHead(d[start], lh), i + 1) == lh[i] {
      WordOfPutWords(b, 1, lh, 0, i + 1);
    }
  }

  // ----- recovery

  /** Blocks outside the log area. */
  predicate Home(start: nat, b: nat)
  {
    b < start || start + LOGBLOCKS < b
  }

  ghost predicate HomeSame(start: nat, d: Image, e: Image)
  {
    |d| == |e| && forall b :: 0 <= b < |d| && Home(start, b) ==> d[b] == e[b]
  }

  /** The entries name blocks of the disk outside the log. */
  ghost predicate GoodHead(d: Image, start: nat, lh: seq<Word>)
  {
    && start + LOGBLOCKS < |d| && |lh| <= LOGBLOCKS
    && forall i :: 0 <= i < |lh| ==> lh[i] < |d| && Home(start, lh[i])
  }

  /** A disk recovery may start from. */
  ghost predicate GoodDisk(d: Image, start: nat)
  {
    start < |d| && HeadLen(d, start) <= LOGBLOCKS && GoodHead(d, start, HeadOf(d, start))
  }

  /** The disk after `install_trans` copied the first k log blocks home. */
  ghost function Install(d: Image, start: nat, lh: seq<Word>, k: nat): (r: Image)
    requires GoodHead(d, start, lh) && k <= |lh|
    ensures |r| == |d|
  {
    if k == 0 then d else Install(d, start, lh, k - 1)[lh[k - 1] := d[start + k]]
  }

  /** What recovery leaves: every committed block home, the header emptied. */
  ghost function Recover(d: Image, start: nat): (r: Image)
    requires GoodDisk(d, start)
    ensures |r| == |d|
  {
    ClearHead(Install(d, start, HeadOf(d, start), |HeadOf(d, start)|), start)
  }

  ghost function ClearHead(d: Image, start: nat): (r: Image)
    requires start < |d|
  {
    d[start := EncodeHead(d[start], [])]
  }

  /** The position of the last occurrence of b in the first k entries, or -1. */
  ghost function LastAt(lh: seq<Word>, k: nat, b: nat): (m: int)
    requires k <= |lh|
    ensures -1 <= m < k && (m >= 0 ==> lh[m] == b)
    ensures m == -1 <==> b !in lh[..k]
  {
    if k == 0 then -1 else if lh[k - 1] == b then k - 1 else LastAt(lh, k - 1, b)
  }

  /** Installing touches only the named home blocks, and the last copy of a block wins. */
  lemma {:induction false} InstallAt(d: Image, start: nat, lh: seq<Word>, k: nat, b: nat)
    requires GoodHead(d, start, lh) && k <= |lh| && b < |d|
    ensures Install(d, start, lh, k)[b] == if LastAt(lh, k, b) == -1 then d[b] else d[start + 1 + LastAt(lh, k, b)]
  {
    if k > 0 {
      InstallAt(d, start, lh, k - 1, b);
    }
  }

  lemma LastAtGrows(lh: seq<Word>, k: nat, b: nat)
    requires k <= |lh|
    ensures LastAt(lh, k, b) != -1 ==> LastAt(lh, |lh|, b) != -1
  {
  }

  lemma LogUntouched(d: Image, start: nat, lh: seq<Word>, k: nat)
    requires GoodHead(d, start, lh) && k <= |lh|
    ensures forall b :: start <= b <= start + LOGBLOCKS ==> Install(d, start, lh, k)[b] == d[b]
  {
    forall b | start <= b <= start + LOGBLOCKS ensures Install(d, start, lh, k)[b] == d[b] {
      InstallAt(d, start, lh, k, b);
    }
  }

  lemma InstallAgainAt(d: Image, start: nat, lh: seq<Word>, k: nat, b: nat)
    requires GoodHead(d, start, lh) && k <= |lh| && b < |d|
    ensures Install(Install(d, start, lh, k), start, lh, |lh|)[b] == Install(d, start, lh, |lh|)[b]
  {
    hide Install;
    LogUntouched(d, start, lh, k);
    InstallAt(d, start, lh, k, b);
    InstallAt(Install(d, start, lh, k), start, lh, |lh|, b);
    InstallAt(d, start, lh, |lh|, b);
    LastAtGrows(lh, k, b);
  }

  /** Installing everything over a partial installation gives the full installation. */
  lemma InstallAgain(d: Image, start: nat, lh: seq<Word>, k: nat)
    requires GoodHead(d, start, lh) && k <= |lh|
    ensures Install(Install(d, start, lh, k), start, lh, |lh|) == Install(d, start, lh, |lh|)
  {
    forall b | 0 <= b < |d|
      ensures Install(Install(d, start, lh, k), start, lh, |lh|)[b] == Install(d, start, lh, |lh|)[b]
    {
      InstallAgainAt(d, start, lh, k, b);
    }
  }

  lemma ClearTwice(d: Image, start: nat)
    requires start < |d|
    ensures ClearHead(ClearHead(d, start), start) == ClearHead(d, start)
    ensures HeadLen(ClearHead(d, start), start) == 0
  {
    WordOfSetWord(d[start], 0, 0, 0);
    var b := SetWord(d[start], 0, 0);
    assert SetWord(b, 0, 0) == b;
  }

  /** The disk images of install_trans's first n block writes. */
  ghost function Installs(d: Image, start: nat, lh: seq<Word>, n: nat): (t: seq<Image>)
    requires GoodHead(d, start, lh) && n <= |lh|
  {
    seq(n, k requires 0 <= k < n => Install(d, start, lh, k + 1))
  }

  /** The disk images recovery passes through, one per block write. */
  ghost function RecoveryTrace(d: Image, start: nat): (t: seq<Image>)
    requires GoodDisk(d, start)
  {
    Installs(d, start, HeadOf(d, start), HeadLen(d, start)) + [Recover(d, start)]
  }

  /** `e` is what a crash at some point of recovery from d leaves on the disk. */
  ghost predicate CrashInRecovery(d: Image, start: nat, e: Image)
    requires GoodDisk(d, start)
  {
    e == d || e in RecoveryTrace(d, start)
  }

  /** Recovery from any crash during recovery ends in the very same disk, bit for bit. */
  lemma RecoverFromCrash(d: Image, start: nat, e: Image)
    requires GoodDisk(d, start) && CrashInRecovery(d, start, e)
    ensures GoodDisk(e, start) && Recover(e, start) == Recover(d, start)
  {
    var lh := HeadOf(d, start);
    if e == Recover(d, start) {
      RecoverIdempotent(d, start);
    } else if e != d {
      var k :| 0 < k <= |lh| && e == Install(d, start, lh, k);
      LogUntouched(d, start, lh, k);
      InstallAgain(d, start, lh, k);
    }
  }

  lemma RecoverIdempotent(d: Image, start: nat)
    requires GoodDisk(d, start)
    ensures GoodDisk(Recover(d, start), start)
    ensures Recover(Recover(d, start), start) == Recover(d, start)
  {
    var lh := HeadOf(d, start);
    var full := Install(d, start, lh, |lh|);
    ClearTwice(full, start);
    var r := Recover(d, start);
    assert HeadLen(r, start) == 0;
    assert HeadOf(r, start) == [];
    assert Recover(r, start) == ClearHead(r, start);
  }

  /** A run of recoveries, each but the last cut short by a crash: ds lists the disks they start from. */
  ghost predicate CrashRun(ds: seq<Image>, start: nat)
  {
    && ds != [] && GoodDisk(ds[0], start)
    && (|ds| > 1 ==> CrashInRecovery(ds[0], start, ds[1]) && CrashRun(ds[1..], start))
  }

  /** However often recovery is interrupted, completing it gives the same disk. */
  lemma {:induction false} RecoverAfterAnyCrashes(ds: seq<Image>, start: nat)
    requires CrashRun(ds, start)
    ensures GoodDisk(ds[|ds| - 1], start) && Recover(ds[|ds| - 1], start) == Recover(ds[0], start)
  {
    if |ds| > 1 {
      RecoverFromCrash(ds[0], start, ds[1]);
      RecoverAfterAnyCrashes(ds[1..], start);
    }
  }

  // ----- commit

  /** The disk after `write_log` copied the first k blocks from the cache to the log. */
  ghost function LogCopied(d: Image, start: nat, view: Image, lh: seq<Word>, k: nat): (r: Image)
    requires GoodHead(d, start, lh) && |view| == |d| && k <= |lh|
    ensures |r| == |d|
  {
    if k == 0 then d else LogCopied(d, start, view, lh, k - 1)[start + k := view[lh[k - 1]]]
  }

  /** The disk right after the commit point, the first `write_head`. */
  ghost function Committed(d: Image, start: nat, view: Image, lh: seq<Word>): (r: Image)
    requires GoodHead(d, start, lh) && |view| == |d|
    ensures |r| == |d|
  {
    LogCopied(d, start, view, lh, |lh|)[start := EncodeHead(d[start], lh)]
  }

  /** The disk images of write_log's first n block writes. */
  ghost function LogCopies(d: Image, start: nat, view: Image, lh: seq<Word>, n: nat): (t: seq<Image>)
    requires GoodHead(d, start, lh) && |view| == |d| && n <= |lh|
  {
    seq(n, k requires 0 <= k < n => LogCopied(d, start, view, lh, k + 1))
  }

  /** Every disk image commit passes through, one per block write. */
  ghost function CommitTrace(d: Image, start: nat, view: Image, lh: seq<Word>): (t: seq<Image>)
    requires GoodHead(d, start, lh) && |view| == |d|
  {
    var c := Committed(d, start, view, lh);
    LogCopies(d, start, view, lh, |lh|) + [c] + Installs(c, start, lh, |lh|) +
          [ClearHead(Install(c, start, lh, |lh|), start)]
  }

  /** The home blocks after the transaction: the logged ones as the cache holds them. */
  ghost predicate Applied(start: nat, d: Image, view: Image, lh: seq<Word>, r: Image)
  {
    && |d| == |view| == |r|
    && forall b :: 0 <= b < |d| && Home(start, b) ==> r[b] == if b in lh then view[b] else d[b]
  }

  lemma {:induction false} LogCopiedAt(d: Image, start: nat, view: Image, lh: seq<Word>, k: nat, b: nat)
    requires GoodHead(d, start, lh) && |view| == |d| && k <= |lh| && b < |d|
    ensures LogCopied(d, start, view, lh, k)[b] == if start < b <= start + k then view[lh[b - start - 1]] else d[b]
  {
    if k > 0 {
      LogCopiedAt(d, start, view, lh, k - 1, b);
    }
  }

  /** Before the header is written, recovery finds an empty log and leaves home blocks alone. */
  lemma CrashBeforeCommit(d: Image, start: nat, view: Image, lh: seq<Word>, k: nat)
    requires GoodHead(d, start, lh) && |view| == |d| && k <= |lh| && HeadLen(d, start) == 0
    ensures var e := LogCopied(d, start, view, lh, k);
            GoodDisk(e, start) && HomeSame(start, Recover(e, start), d)
  {
    var e := LogCopied(d, start, view, lh, k);
    LogCopiedAt(d, start, view, lh, k, start);
    forall b | 0 <= b < |d| && Home(start, b) ensures Recover(e, start)[b] == d[b] {
      LogCopiedAt(d, start, view, lh, k, b);
    }
  }

  lemma CommittedHead(d: Image, start: nat, view: Image, lh: seq<Word>)
    requires GoodHead(d, start, lh) && |view| == |d|
    ensures var c := Committed(d, start, view, lh); GoodDisk(c, start) && HeadOf(c, start) == lh
  {
    var e := LogCopied(d, start, view, lh, |lh|);
    LogCopiedAt(d, start, view, lh, |lh|, start);
    HeadRoundTrip(e, start, lh);
  }

  /** From the header write on, recovery completes the transaction. */
  lemma CommittedRecovers(d: Image, start: nat, view: Image, lh: seq<Word>)
    requires GoodHead(d, start, lh) && |view| == |d|
    ensures var c := Committed(d, start, view, lh);
            GoodDisk(c, start) && Applied(start, d, view, lh, Recover(c, start))
  {
    var c := Committed(d, start, view, lh);
    CommittedHead(d, start, view, lh);
    forall b | 0 <= b < |d| && Home(start, b)
      ensures Recover(c, start)[b] == if b in lh then view[b] else d[b]
    {
      CommittedRecoversAt(d, start, view, lh, b);
    }
  }

  lemma CommittedRecoversAt(d: Image, start: nat, view: Image, lh: seq<Word>, b: nat)
    requires GoodHead(d, start, lh) && |view| == |d| && b < |d| && Home(start, b)
    requires GoodDisk(Committed(d, start, view, lh), start) && HeadOf(Committed(d, start, view, lh), start) == lh
    ensures Recover(Committed(d, start, view, lh), start)[b] == if b in lh then view[b] else d[b]
  {
    hide LogCopied, Install;
    var c := Committed(d, start, view, lh);
    var m := LastAt(lh, |lh|, b);
    assert lh[..|lh|] == lh;
    CommittedElse(d, start, view, lh);
    InstallAt(c, start, lh, |lh|, b);
    if m == -1 {
      LogCopiedAt(d, start, view, lh, |lh|, b);
    } else {
      LogCopiedAt(d, start, view, lh, |lh|, start + 1 + m);
    }
  }

  /** The write of the header leaves the other blocks of the disk alone. */
  lemma CommittedElse(d: Image, start: nat, view: Image, lh: seq<Word>)
    requires GoodHead(d, start, lh) && |view| == |d|
    ensures var c, l := Committed(d, start, view, lh), LogCopied(d, start, view, lh, |lh|);
            |c| == |l| == |d| && forall x :: 0 <= x < |d| && x != start ==> c[x] == l[x]
  {
  }

  /** From the commit point on, the disk is one that recovery itself passes through. */
  lemma CommitIsRecovery(d: Image, start: nat, view: Image, lh: seq<Word>, j: nat)
    requires GoodHead(d, start, lh) && |view| == |d|
    requires |lh| <= j < |CommitTrace(d, start, view, lh)|
    requires GoodDisk(Committed(d, start, view, lh), start) && HeadOf(Committed(d, start, view, lh), start) == lh
    ensures CrashInRecovery(Committed(d, start, view, lh), start, CommitTrace(d, start, view, lh)[j])
  {
    var c := Committed(d, start, view, lh);
    var t := RecoveryTrace(c, start);
    if j > |lh| {
      assert CommitTrace(d, start, view, lh)[j] == t[j - |lh| - 1];
    }
  }

  /** Crash atomicity: whatever block write of commit a crash follows, recovery either leaves the home
      blocks as they were before the transaction or with every logged block applied, and the
      switch is the write numbered |lh|, the first write of the header. */
  lemma CrashAtomicity(d: Image, start: nat, view: Image, lh: seq<Word>, j: nat)
    requires GoodHead(d, start, lh) && |view| == |d| && HeadLen(d, start) == 0
    requires j < |CommitTrace(d, start, view, lh)|
    ensures var e := CommitTrace(d, start, view, lh)[j];
            && GoodDisk(e, start)
            && (j < |lh| ==> HomeSame(start, Recover(e, start), d))
            && (j >= |lh| ==> Applied(start, d, view, lh, Recover(e, start)))
  {
    var e := CommitTrace(d, start, view, lh)[j];
    var c := Committed(d, start, view, lh);
    if j < |lh| {
      CrashBeforeCommit(d, start, view, lh, j + 1);
    } else {
      CommittedHead(d, start, view, lh);
      CommittedRecovers(d, start, view, lh);
      CommitIsRecovery(d, start, view, lh, j);
      RecoverFromCrash(c, start, e);
    }
  }

  /** The same with any number of further crashes while recovering. */
  lemma CrashAtomicityRun(d: Image, start: nat, view: Image, lh: seq<Word>, j: nat, ds: seq<Image>)
    requires GoodHead(d, start, lh) && |view| == |d| && HeadLen(d, start) == 0
    requires j < |CommitTrace(d, start, view, lh)|
    requires CrashRun(ds, start) && ds[0] == CommitTrace(d, start, view, lh)[j]
    ensures GoodDisk(ds[|ds| - 1], start)
    ensures var r := Recover(ds[|ds| - 1], start);
            if j < |lh| then HomeSame(start, r, d) else Applied(start, d, view, lh, r)
  {
    CrashAtomicity(d, start, view, lh, j);
    RecoverAfterAnyCrashes(ds, start);
  }
}
