/** The write-ahead log of kernel/log.c running over the buffer cache. */
module Log {
  import opened Blocks
  import opened Bio
  import opened LogDisk
  import LogSpace

  /** No process is inside a buffer. */
  ghost predicate Quiet(s: Snapshot)
  {
    Shape(s) && s.modified == {} && forall i :: 0 <= i < NBUF ==> !s.bufs[i].locked
  }

  ghost predicate SameRefs(s: Snapshot, r: Snapshot)
  {
    Shape(s) && Shape(r) && forall i :: 0 <= i < NBUF ==> s.bufs[i].refcnt == r.bufs[i].refcnt
  }

  ghost predicate Distinct(lh: seq<Word>)
  {
    forall i, j :: 0 <= i < j < |lh| ==> lh[i] != lh[j]
  }

  ghost predicate AllFree(s: Snapshot)
  {
    Shape(s) && forall i :: 0 <= i < NBUF ==> s.bufs[i].refcnt == 0
  }

  /** `r` is `s` with block `b` given the contents `d`, in the cache and on the disk. */
  ghost predicate Put(s: Snapshot, b: nat, d: Block, r: Snapshot)
  {
    b < |s.disk| && b < |s.view| && r.disk == s.disk[b := d] && r.view == s.view[b := d] && Quiet(r)
    && r.trace == s.trace + [r.disk]
  }

  lemma PutQuiet(s: Snapshot, b: nat, d: Block, r: Snapshot)
    requires Put(s, b, d, r)
    ensures Quiet(r)
  {
  }

  /** The end of a turn of either copying loop: buffer `src` copied into buffer `dst` and written
      through, the pin dropped if asked, both buffers released. */
  ghost function CopyFx(s: Snapshot, dst: nat, src: nat, unpin: bool): (r: Snapshot)
    requires Shape(s) && dst < NBUF && src < NBUF && s.bufs[dst].blockno < |s.disk|
  {
    var m := Write(Modify(s, dst, s.bufs[src].data), dst);
    Release(Release(if unpin then Unpin(m, dst) else m, src), dst)
  }

  /** Both buffers are held by the caller, and the destination is pinned if it is to be unpinned. */
  ghost predicate CanCopy(s: Snapshot, dst: nat, src: nat, unpin: bool)
  {
    && Inv(s) && dst < NBUF && src < NBUF && dst != src && s.modified == {}
    && s.bufs[dst].locked && s.bufs[dst].valid && s.bufs[src].locked && s.bufs[dst].blockno < |s.disk|
    && (unpin ==> s.bufs[dst].blockno in s.logged)
  }

  /** Each step of `CopyFx` finds the buffers as the cache method doing it demands. */
  lemma CopySteps(s: Snapshot, dst: nat, src: nat, unpin: bool)
    requires CanCopy(s, dst, src, unpin)
    ensures var m := Modify(s, dst, s.bufs[src].data);
            && Shape(m) && m.bufs[dst].locked && m.bufs[dst].valid && m.bufs[dst].blockno < |m.disk|
            && var w := Write(m, dst);
            && Shape(w) && w.bufs[dst].dev != 0 && w.bufs[dst].blockno < |w.disk|
            && (unpin ==> w.bufs[dst].blockno in w.logged && w.view[w.bufs[dst].blockno] == w.disk[w.bufs[dst].blockno])
            && var u := if unpin then Unpin(w, dst) else w;
            && u.disk == w.disk && Shape(u) && u.bufs[src].locked && u.bufs[src].blockno !in u.modified
            && var q := Release(u, src);
            && q.disk == w.disk && Shape(q) && q.bufs[dst].locked && q.bufs[dst].blockno !in q.modified
            && Release(q, dst).disk == w.disk
  {
    assert BufOk(s, dst) && BufOk(s, src);
  }

  /** The two `bread`s of a loop turn, both buffers locked and ready to be copied and released. */
  ghost predicate Reading(s: Snapshot, i: nat, b: nat, j: nat, c: nat, r: Snapshot)
  {
    && Inv(s) && Quiet(s) && b != c && b < |s.disk| && c < |s.disk|
    && i < NBUF && j < NBUF && i != j && Inv(r)
    && r.disk == s.disk && r.view == s.view && r.logged == s.logged && r.modified == {} && r.trace == s.trace
    && r.bufs == s.bufs[i := Buf(ROOTDEV, b, true, s.bufs[i].refcnt + 1, true, s.view[b])]
                       [j := Buf(ROOTDEV, c, true, s.bufs[j].refcnt + 1, true, s.view[c])]
    && r.users == s.users[i := s.users[i] + 1][j := s.users[j] + 1]
  }

  /** After the log block is read, the home block can be read too, in another buffer: it is pinned,
      or nothing is and buffers are plentiful. */
  lemma HomeReadable(s: Snapshot, i: nat, b: nat, s1: Snapshot, c: nat)
    requires Inv(s) && Quiet(s) && ReadOf(s, i, b, s1) && Inv(s1) && b != c
    requires c in s.logged || AllFree(s)
    ensures c in s1.index ==> s1.index[c] < NBUF && !s1.bufs[s1.index[c]].locked && s1.index[c] != i
    ensures c in s1.index || exists k :: 0 <= k < NBUF && k != i && s1.bufs[k].refcnt == 0
  {
    assert c in s1.index ==> Cached(s1, c);
    if c !in s1.index {
      assert s1.bufs[if i == 0 then 1 else 0].refcnt == 0;
    }
  }

  lemma BothRead(s: Snapshot, i: nat, b: nat, s1: Snapshot, j: nat, c: nat, s2: Snapshot)
    requires Inv(s) && Quiet(s) && ReadOf(s, i, b, s1) && ReadOf(s1, j, c, s2) && Inv(s2) && b != c && i != j
    ensures Reading(s, i, b, j, c, s2)
  {
  }

  lemma ReadingSwap(s: Snapshot, i: nat, b: nat, j: nat, c: nat, r: Snapshot)
    requires Reading(s, i, b, j, c, r)
    ensures Reading(s, j, c, i, b, r)
  {
    var x, y := Buf(ROOTDEV, b, true, s.bufs[i].refcnt + 1, true, s.view[b]),
          Buf(ROOTDEV, c, true, s.bufs[j].refcnt + 1, true, s.view[c]);
    assert s.bufs[i := x][j := y] == s.bufs[j := y][i := x];
    assert s.users[i := s.users[i] + 1][j := s.users[j] + 1] == s.users[j := s.users[j] + 1][i := s.users[i] + 1];
  }

  lemma CopyReady(s: Snapshot, i: nat, b: nat, j: nat, c: nat, r: Snapshot, unpin: bool)
    requires Reading(s, i, b, j, c, r)
    requires unpin ==> c in s.logged
    ensures CanCopy(r, j, i, unpin)
    ensures unpin ==> s.bufs[j].refcnt > 0
  {
    assert BufOk(r, j);
  }

  lemma CopyContents(s: Snapshot, i: nat, b: nat, j: nat, c: nat, r: Snapshot, unpin: bool)
    requires Reading(s, i, b, j, c, r) && CanCopy(r, j, i, unpin)
    ensures var e := CopyFx(r, j, i, unpin);
            && c < |s.view| && e.disk == s.disk[c := s.view[b]] && e.view == s.view[c := s.view[b]]
            && e.trace == s.trace + [e.disk] && e.modified == {}
            && e.logged == (if unpin then s.logged - {c} else s.logged)
  {
    hide BufOk, Cached;
  }

  lemma CopyRefs(s: Snapshot, i: nat, b: nat, j: nat, c: nat, r: Snapshot, unpin: bool)
    requires Reading(s, i, b, j, c, r) && CanCopy(r, j, i, unpin)
    ensures var e := CopyFx(r, j, i, unpin);
            && Shape(e) && (forall k :: 0 <= k < NBUF ==> !e.bufs[k].locked)
            && (forall k :: 0 <= k < NBUF && k != j ==> e.bufs[k].refcnt == s.bufs[k].refcnt)
            && e.bufs[j].refcnt == s.bufs[j].refcnt - (if unpin then 1 else 0)
  {
    hide BufOk, Cached;
  }

  /** The end of a loop turn, on snapshots: only block c (in buffer j) changed. */
  lemma CopyEffect(s: Snapshot, i: nat, b: nat, j: nat, c: nat, r: Snapshot, unpin: bool)
    requires Reading(s, i, b, j, c, r)
    requires unpin ==> c in s.logged
    ensures CanCopy(r, j, i, unpin)
    ensures var e := CopyFx(r, j, i, unpin);
            && Put(s, c, s.view[b], e) && (!unpin ==> SameRefs(s, e))
            && e.logged == (if unpin then s.logged - {c} else s.logged)
            && (forall k :: 0 <= k < NBUF && k != j ==> e.bufs[k].refcnt == s.bufs[k].refcnt)
            && e.bufs[j].refcnt == s.bufs[j].refcnt - (if unpin then 1 else 0)
    ensures unpin ==> s.bufs[j].refcnt > 0
  {
    hide Inv, Reading, CopyFx;
    CopyReady(s, i, b, j, c, r, unpin);
    CopyContents(s, i, b, j, c, r, unpin);
    CopyRefs(s, i, b, j, c, r, unpin);
    assert Shape(s) by { ReadingShape(s, i, b, j, c, r); }
  }

  lemma ReadingShape(s: Snapshot, i: nat, b: nat, j: nat, c: nat, r: Snapshot)
    requires Reading(s, i, b, j, c, r)
    ensures Shape(s) && j < NBUF && c < |s.disk| && c < |s.view|
  {
  }

  /** A whole turn of write_log after its two reads, on snapshots. */
  lemma WriteLogTurn(s: Snapshot, i: nat, b: nat, j: nat, c: nat, r: Snapshot)
    requires Reading(s, i, b, j, c, r)
    ensures CanCopy(r, i, j, false)
    ensures var e := CopyFx(r, i, j, false);
            Put(s, b, s.view[c], e) && SameRefs(s, e) && e.logged == s.logged
  {
    ReadingSwap(s, i, b, j, c, r);
    CopyEffect(s, j, c, i, b, r, false);
  }

  /** Some buffer is unreferenced, so that `bget` can recycle. */
  ghost predicate SomeFree(s: Snapshot)
  {
    Shape(s) && exists j :: 0 <= j < NBUF && s.bufs[j].refcnt == 0
  }

  lemma SameRefsFree(s: Snapshot, e: Snapshot)
    requires SomeFree(s) && SameRefs(s, e)
    ensures SomeFree(e)
  {
    var k :| 0 <= k < NBUF && s.bufs[k].refcnt == 0;
    assert e.bufs[k].refcnt == 0;
  }

  lemma StillFree(s: Snapshot, e: Snapshot, j: nat)
    requires Inv(s) && SomeFree(s) && Shape(e) && j < NBUF && s.bufs[j].refcnt > 0
    requires forall k :: 0 <= k < NBUF && k != j ==> e.bufs[k].refcnt == s.bufs[k].refcnt
    ensures SomeFree(e)
  {
    var k :| 0 <= k < NBUF && s.bufs[k].refcnt == 0;
    assert e.bufs[k].refcnt == 0;
  }

  /** The copying loop of write_log after `tail` turns, started from s0. */
  ghost predicate LogCopying(s0: Snapshot, start: nat, lh: seq<Word>, tail: nat, s: Snapshot)
    requires GoodHead(s0.disk, start, lh) && |s0.view| == |s0.disk| && tail <= |lh|
  {
    && s.disk == LogCopied(s0.disk, start, s0.view, lh, tail)
    && s.view == LogCopied(s0.view, start, s0.view, lh, tail)
    && s.trace == s0.trace + LogCopies(s0.disk, start, s0.view, lh, tail)
    && s.logged == s0.logged
  }

  lemma LogCopyingNone(s: Snapshot, start: nat, lh: seq<Word>)
    requires Quiet(s) && GoodHead(s.disk, start, lh)
    ensures |s.view| == |s.disk| && LogCopying(s, start, lh, 0, s)
  {
  }

  lemma LogCopyingHead(s0: Snapshot, start: nat, lh: seq<Word>, tail: nat, s: Snapshot)
    requires GoodHead(s0.disk, start, lh) && |s0.view| == |s0.disk| && tail <= |lh|
    requires LogCopying(s0, start, lh, tail, s)
    ensures GoodHead(s.disk, start, lh) && s.logged == s0.logged && |s.view| == |s.disk|
  {
    hide LogCopies;
  }

  lemma LogCopyingStep(s0: Snapshot, start: nat, lh: seq<Word>, tail: nat, s: Snapshot, e: Snapshot)
    requires GoodHead(s0.disk, start, lh) && |s0.view| == |s0.disk| && tail < |lh|
    requires LogCopying(s0, start, lh, tail, s) && Put(s, start + tail + 1, s.view[lh[tail]], e) && e.logged == s.logged
    ensures LogCopying(s0, start, lh, tail + 1, e)
  {
    LogCopiedAt(s0.view, start, s0.view, lh, tail, lh[tail]);
    assert LogCopies(s0.disk, start, s0.view, lh, tail + 1) == LogCopies(s0.disk, start, s0.view, lh, tail) + [e.disk];
  }

  /** What install_trans needs before entry `tail`: the home blocks still to come are pinned and a
      buffer is free, or (recovering) nothing is referenced; and log blocks are on the disk. */
  ghost predicate Installable(s: Snapshot, start: nat, lh: seq<Word>, tail: nat, recovering: bool)
  {
    && Quiet(s) && GoodHead(s.disk, start, lh)
    && (forall b :: b in s.logged ==> Home(start, b))
    && (if recovering then AllFree(s) && s.logged == {}
        else SomeFree(s) && forall i :: tail <= i < |lh| ==> lh[i] in s.logged)
  }

  lemma InstallableStep(s: Snapshot, start: nat, lh: seq<Word>, tail: nat, recovering: bool, j: nat, e: Snapshot)
    requires Inv(s) && tail < |lh| && Installable(s, start, lh, tail, recovering) && j < NBUF
    requires recovering || Distinct(lh)
    requires Put(s, lh[tail], s.view[start + tail + 1], e)
    requires e.logged == (if recovering then s.logged else s.logged - {lh[tail]})
    requires forall k :: 0 <= k < NBUF && k != j ==> e.bufs[k].refcnt == s.bufs[k].refcnt
    requires e.bufs[j].refcnt == s.bufs[j].refcnt - (if recovering then 0 else 1)
    requires !recovering ==> s.bufs[j].refcnt > 0
    ensures Installable(e, start, lh, tail + 1, recovering)
    ensures Put(s, lh[tail], s.disk[start + tail + 1], e) && e.logged == s.logged - {lh[tail]}
  {
    if !recovering {
      StillFree(s, e, j);
    }
  }

  lemma InstallPlaces(s: Snapshot, start: nat, lh: seq<Word>, tail: nat, recovering: bool)
    requires tail < |lh| && Installable(s, start, lh, tail, recovering)
    ensures Quiet(s) && start + tail + 1 < |s.disk| && lh[tail] < |s.disk| && start + tail + 1 != lh[tail]
    ensures AllFree(s) || (SomeFree(s) && lh[tail] in s.logged)
  {
  }

  /** A whole turn of install_trans after its two reads, on snapshots. */
  lemma InstallTurn(s: Snapshot, start: nat, lh: seq<Word>, tail: nat, recovering: bool, i: nat, j: nat, r: Snapshot)
    requires Inv(s) && tail < |lh| && Installable(s, start, lh, tail, recovering) && (recovering || Distinct(lh))
    requires Reading(s, i, start + tail + 1, j, lh[tail], r)
    ensures CanCopy(r, j, i, !recovering)
    ensures var e := CopyFx(r, j, i, !recovering);
            && Installable(e, start, lh, tail + 1, recovering)
            && Put(s, lh[tail], s.disk[start + tail + 1], e) && e.logged == s.logged - {lh[tail]}
  {
    CopyEffect(s, i, start + tail + 1, j, lh[tail], r, !recovering);
    InstallableStep(s, start, lh, tail, recovering, j, CopyFx(r, j, i, !recovering));
  }

  /** The installing loop after `tail` turns, started from s0: the first blocks are home, in the
      cache too, and no longer pinned. */
  ghost predicate Installing(s0: Snapshot, start: nat, lh: seq<Word>, tail: nat, s: Snapshot)
    requires GoodHead(s0.disk, start, lh) && |s0.view| == |s0.disk| && tail <= |lh|
  {
    && s.disk == Install(s0.disk, start, lh, tail)
    && |s.view| == |s0.view|
    && (forall b :: 0 <= b < |s0.view| ==> s.view[b] == if b in lh[..tail] then s.disk[b] else s0.view[b])
    && s.trace == s0.trace + Installs(s0.disk, start, lh, tail)
    && (forall b :: b in s.logged <==> b in s0.logged && b !in lh[..tail])
  }

  lemma InstallingNone(s: Snapshot, start: nat, lh: seq<Word>, recovering: bool)
    requires Installable(s, start, lh, 0, recovering)
    ensures |s.view| == |s.disk| && GoodHead(s.disk, start, lh) && Installing(s, start, lh, 0, s)
  {
  }

  lemma InstallingStep(s0: Snapshot, start: nat, lh: seq<Word>, tail: nat, s: Snapshot, e: Snapshot)
    requires GoodHead(s0.disk, start, lh) && |s0.view| == |s0.disk| && tail < |lh|
    requires Installing(s0, start, lh, tail, s) && Put(s, lh[tail], s.disk[start + tail + 1], e)
    requires e.logged == s.logged - {lh[tail]}
    ensures Installing(s0, start, lh, tail + 1, e)
  {
    LogUntouched(s0.disk, start, lh, tail);
    assert lh[..tail + 1] == lh[..tail] + [lh[tail]];
    assert Installs(s0.disk, start, lh, tail + 1) == Installs(s0.disk, start, lh, tail) + [e.disk];
  }

  /** `write_head` on snapshots: read the block at `b`, store `d`, write it, release it. */
  lemma RewriteEffect(s: Snapshot, i: nat, b: nat, s1: Snapshot, d: Block)
    requires Inv(s) && Quiet(s) && ReadOf(s, i, b, s1) && b < |s.disk|
    ensures var m := Modify(s1, i, d);
            && Shape(m) && m.bufs[i].locked && m.bufs[i].valid && m.bufs[i].blockno < |m.disk|
            && var w := Write(m, i);
            && Shape(w) && w.bufs[i].locked && w.bufs[i].blockno !in w.modified
            && var e := Release(w, i);
            && Put(s, b, d, e) && SameRefs(s, e) && e.logged == s.logged
  {
  }

  /** `read_head` on snapshots: a block read and released leaves the cache as it was for others. */
  lemma PeekEffect(s: Snapshot, i: nat, b: nat, s1: Snapshot)
    requires Inv(s) && Quiet(s) && ReadOf(s, i, b, s1) && b < |s.disk|
    ensures s1.bufs[i].locked && s1.bufs[i].blockno !in s1.modified
    ensures var e := Release(s1, i);
            && e.disk == s.disk && e.view == s.view && e.logged == s.logged && e.trace == s.trace
            && Quiet(e) && SameRefs(s, e)
  {
  }

  /** A commit may start: the pinned blocks are exactly the logged ones, all outside the log, the
      on-disk log is empty, no buffer is in use and one can be recycled. */
  ghost predicate Committable(s: Snapshot, start: nat, lh: seq<Word>)
  {
    && Quiet(s) && SomeFree(s) && GoodHead(s.disk, start, lh) && Distinct(lh)
    && (forall b :: b in s.logged <==> b in lh)
    && HeadLen(s.disk, start) == 0
  }

  lemma Regroup(t: seq<Image>, a: seq<Image>, c: Image, b: seq<Image>, e: Image)
    ensures (t + (a + [c])) + (b + [e]) == t + (a + [c] + b + [e])
  {
  }

  /** The commit record is on the disk and the log can be installed. */
  ghost predicate Recorded(s0: Snapshot, start: nat, lh: seq<Word>, s: Snapshot)
    requires GoodHead(s0.disk, start, lh) && |s0.view| == |s0.disk|
  {
    && s.disk == Committed(s0.disk, start, s0.view, lh)
    && s.trace == s0.trace + (LogCopies(s0.disk, start, s0.view, lh, |lh|) + [s.disk])
    && Installable(s, start, lh, 0, false)
    && s.logged == s0.logged
  }

  lemma RecordMade(s0: Snapshot, start: nat, lh: seq<Word>, s1: Snapshot, s2: Snapshot)
    requires Inv(s0) && Committable(s0, start, lh) && LogCopying(s0, start, lh, |lh|, s1) && SomeFree(s1)
    requires Put(s1, start, EncodeHead(s1.disk[start], lh), s2) && SameRefs(s1, s2) && s2.logged == s1.logged
    ensures Recorded(s0, start, lh, s2)
  {
    LogCopiedAt(s0.disk, start, s0.view, lh, |lh|, start);
    SameRefsFree(s1, s2);
    var a := LogCopies(s0.disk, start, s0.view, lh, |lh|);
    assert (s0.trace + a) + [s2.disk] == s0.trace + (a + [s2.disk]);
  }

  /** Installing unpins every block. */
  lemma AfterInstall(s2: Snapshot, start: nat, lh: seq<Word>, s3: Snapshot)
    requires Installable(s2, start, lh, 0, false) && |s2.view| == |s2.disk|
    requires forall b :: b in s2.logged <==> b in lh
    requires Installing(s2, start, lh, |lh|, s3)
    ensures s3.logged == {} && |s3.disk| == |s2.disk|
  {
    assert lh[..|lh|] == lh;
  }

  /** After a commit every home block on the disk is what the cache held when it began. */
  lemma CommitDurable(s0: Snapshot, start: nat, lh: seq<Word>, e: Image)
    requires Inv(s0) && Committable(s0, start, lh)
    requires e == ClearHead(Install(Committed(s0.disk, start, s0.view, lh), start, lh, |lh|), start)
    ensures HeadLen(e, start) == 0 && HomeSame(start, e, s0.view)
  {
    var c := Committed(s0.disk, start, s0.view, lh);
    CommittedHead(s0.disk, start, s0.view, lh);
    CommittedRecovers(s0.disk, start, s0.view, lh);
    ClearTwice(Install(c, start, lh, |lh|), start);
  }

  /** The loop of `write_head` over the entries. */
  method EncodeHeader(b: Block, lh: seq<Word>) returns (r: Block)
    requires |lh| <= LOGBLOCKS
    ensures r == EncodeHead(b, lh)
  {
    r := SetWord(b, 0, |lh|);
    var i := 0;
    while i < |lh|
      invariant 0 <= i <= |lh| && PutWords(r, 1, lh, i) == EncodeHead(b, lh)
    {
      r := SetWord(r, i + 1, lh[i]);
      i := i + 1;
    }
  }

  /** The loop of `read_head` over the entries. */
  method DecodeHeader(b: Block) returns (lh: seq<Word>)
    requires WordAt(b, 0) <= LOGBLOCKS
    ensures |lh| == WordAt(b, 0) && forall i :: 0 <= i < |lh| ==> lh[i] == WordAt(b, i + 1)
    ensures forall d: Image, start: nat :: start < |d| && d[start] == b ==> lh == HeadOf(d, start)
  {
    lh := [];
    while |lh| < WordAt(b, 0)
      invariant |lh| <= WordAt(b, 0) && forall i :: 0 <= i < |lh| ==> lh[i] == WordAt(b, i + 1)
    {
      lh := lh + [WordAt(b, |lh| + 1)];
    }
  }

  class Log {
    const cache: BufferCache
    const start: nat
    /** The in-memory header: log.lh.block[0 .. log.lh.n]. */
    var lh: seq<Word>
    var outstanding: nat
    var committing: bool
    /** The operation each process has open. */
    ghost var ops: seq<LogSpace.Op>

    constructor (cache: BufferCache, start: nat, nproc: nat)
      ensures this.cache == cache && this.start == start && LogSpace.Init(Abs()) && |ops| == nproc
    {
      this.cache, this.start := cache, start;
      lh, outstanding, committing := [], 0, false;
      ops := seq(nproc, _ => LogSpace.Closed);
    }

    ghost function Abs(): LogSpace.State
      reads this
    {
      LogSpace.State(lh, outstanding, committing, ops)
    }

    /** Between operations of the log: the pinned blocks are exactly the logged ones, they have
        home locations, and the on-disk log is empty. */
    ghost predicate Valid()
      reads this, cache, cache.bufs, cache.next, cache.prev
    {
      && cache.Valid() && LogSpace.Inv(Abs())
      && GoodHead(cache.snap.disk, start, lh) && HeadLen(cache.snap.disk, start) == 0
      && forall b :: b in cache.snap.logged <==> b in lh
    }

    /** One turn of the loop in begin_op by process p; false means it sleeps. */
    method BeginOp(p: nat) returns (ok: bool)
      requires Valid() && p < |ops| && ops[p].Closed?
      modifies this`outstanding, this`ops
      ensures Valid()
      ensures ok <==> !committing && |lh| + (old(outstanding) + 1) * MAXOPBLOCKS <= LOGBLOCKS
      ensures if ok then LogSpace.Begin(old(Abs()), Abs(), p) else Abs() == old(Abs())
    {
      if committing {
        ok := false;
      } else if |lh| + (outstanding + 1) * MAXOPBLOCKS > LOGBLOCKS {
        ok := false;
      } else {
        ghost var s := Abs();
        outstanding := outstanding + 1;
        ops := ops[p := LogSpace.Open({}, {})];
        LogSpace.BeginInv(s, Abs(), p);
        ok := true;
      }
    }

    /** The scan of log_write: the position of block b in the log, or its length. */
    method FindLogged(b: Word) returns (i: nat)
      ensures i <= |lh| && (i == |lh| <==> b !in lh) && (i < |lh| ==> lh[i] == b)
    {
      i := 0;
      while i < |lh|
        invariant i <= |lh| && b !in lh[..i]
      {
        if lh[i] == b {
          return;
        }
        i := i + 1;
      }
      assert lh[..|lh|] == lh;
    }

    /** log_write of buffer i by process p; false is either panic.  No panic happens when the process
        has logged fewer than MAXOPBLOCKS blocks before. */
    method LogWrite(p: nat, i: nat) returns (ok: bool)
      requires Valid() && p < |ops| && ops[p].Open? && i < NBUF
      requires cache.snap.bufs[i].locked && cache.snap.bufs[i].valid
      requires Home(start, cache.snap.bufs[i].blockno) && cache.snap.bufs[i].blockno < 0x1_0000_0000
      requires |ops[p].written + {cache.snap.bufs[i].blockno}| <= MAXOPBLOCKS
      modifies this`lh, this`ops, cache, cache.bufs
      ensures ok <==> |old(lh)| < LOGBLOCKS
      ensures old(|ops[p].written|) < MAXOPBLOCKS ==> ok
      ensures ok ==> Valid() && Abs() == LogSpace.LogWrite(old(Abs()), p, old(cache.snap).bufs[i].blockno)
      ensures ok ==> old(cache.snap).bufs[i].blockno in lh && (forall b :: b in old(lh) ==> b in lh)
      ensures ok ==>
                cache.snap == if old(cache.snap).bufs[i].blockno in old(lh) then Absorb(old(cache.snap), i)
                              else Pin(old(cache.snap), i)
    {
      var b := cache.Blockno(i);
      ghost var t := LogSpace.LogWrite(Abs(), p, b);
      LogSpace.LogWriteExact(Abs(), t, p, b);
      if t.State? {
        LogSpace.LogWriteHolds(Abs(), t, p, b);
      }
      assert BufOk(cache.snap, i);
      if |lh| >= LOGBLOCKS || outstanding < 1 {
        return false;
      }
      ok := true;
      hide BufferCache.Valid, LogSpace.Inv, LogSpace.LogWriteStep, Inv;
      Record(p, i, b);
    }

    /** log_write past its panics. */
    method Record(p: nat, i: nat, b: Word)
      requires cache.Valid() && GoodHead(cache.snap.disk, start, lh) && |lh| < LOGBLOCKS
      requires HeadLen(cache.snap.disk, start) == 0
      requires (forall b :: b in cache.snap.logged <==> b in lh) && Home(start, b) && outstanding > 0
      requires p < |ops| && ops[p].Open? && i < NBUF
      requires cache.snap.bufs[i].locked && cache.snap.bufs[i].valid && cache.snap.bufs[i].blockno == b
      modifies this`lh, this`ops, cache, cache.bufs
      ensures cache.Valid()
      ensures cache.snap == if b in old(lh) then Absorb(old(cache.snap), i) else Pin(old(cache.snap), i)
      ensures GoodHead(cache.snap.disk, start, lh) && HeadLen(cache.snap.disk, start) == 0
      ensures forall b :: b in cache.snap.logged <==> b in lh
      ensures Abs() == LogSpace.LogWrite(old(Abs()), p, b)
    {
      var k := FindLogged(b);
      hide BufferCache.Valid;
      if k == |lh| {
        Append(p, i, b);
      } else {
        LogAgain(p, i, b, k);
      }
    }

    /** log_write of a block the log already holds at position k. */
    method LogAgain(p: nat, i: nat, b: Word, k: nat)
      requires cache.Valid() && k < |lh| && lh[k] == b && b in cache.snap.logged && p < |ops| && ops[p].Open?
      requires i < NBUF
      requires cache.snap.bufs[i].locked && cache.snap.bufs[i].blockno == b
      modifies this`lh, this`ops, cache
      ensures cache.Valid() && cache.snap == Absorb(old(cache.snap), i) && lh == old(lh)
      ensures ops == old(ops)[p := old(ops)[p].(written := old(ops)[p].written + {b})]
    {
      hide BufferCache.Valid;
      cache.NoteLogged(i);
      lh := lh[k := b];
      ops := ops[p := ops[p].(written := ops[p].written + {b})];
    }

    /** log_write of a block new to the log. */
    method Append(p: nat, i: nat, b: Word)
      requires cache.Valid() && GoodHead(cache.snap.disk, start, lh) && |lh| < LOGBLOCKS
      requires HeadLen(cache.snap.disk, start) == 0
      requires (forall b :: b in cache.snap.logged <==> b in lh) && b !in lh && Home(start, b)
      requires p < |ops| && ops[p].Open? && i < NBUF
      requires cache.snap.bufs[i].locked && cache.snap.bufs[i].valid && cache.snap.bufs[i].blockno == b
      modifies this`lh, this`ops, cache, cache.bufs
      ensures cache.Valid() && cache.snap == Pin(old(cache.snap), i)
      ensures GoodHead(cache.snap.disk, start, lh) && HeadLen(cache.snap.disk, start) == 0
      ensures forall b :: b in cache.snap.logged <==> b in lh
      ensures lh == old(lh) + [b]
      ensures ops == old(ops)[p := LogSpace.Open(old(ops)[p].written + {b}, old(ops)[p].appended + {b})]
    {
      assert BufOk(cache.snap, i);
      hide BufferCache.Valid;
      cache.Bpin(i);
      lh := lh + [b];
      ops := ops[p := LogSpace.Open(ops[p].written + {b}, ops[p].appended + {b})];
    }

    /** The locked region of end_op by process p; `doCommit` means the caller must commit, which it must exactly if
        its operation was the last one open, and `woke` that it wakes those who wait in begin_op. */
    method EndOp(p: nat) returns (doCommit: bool, woke: bool)
      requires Valid() && p < |ops| && ops[p].Open?
      modifies this`outstanding, this`committing, this`ops
      ensures Valid() && Abs() == LogSpace.EndOp(old(Abs()), p)
      ensures doCommit <==> forall q :: 0 <= q < |ops| ==> q == p || old(ops)[q].Closed?
      ensures committing == doCommit && ops == old(ops)[p := LogSpace.Closed] && woke == !doCommit
      ensures LogSpace.Admits(Abs()) && !old(LogSpace.Admits(Abs())) ==> woke
      ensures doCommit && Quiet(cache.snap) && SomeFree(cache.snap) ==> Committable(cache.snap, start, lh)
    {
      ghost var s := Abs();
      LogSpace.EndInv(s, LogSpace.EndOp(s, p), p);
      outstanding := outstanding - 1;
      ops := ops[p := LogSpace.Closed];
      doCommit, woke := false, false;
      if outstanding == 0 {
        doCommit := true;
        committing := true;
      } else {
        woke := true;
      }
      LogSpace.OthersClosed(s.ops, p);
    }

    /** memmove, bwrite and the releases at the end of a turn of both copying loops. */
    method CopyAndRelease(dst: nat, src: nat, unpin: bool)
      requires cache.Valid() && CanCopy(cache.snap, dst, src, unpin)
      modifies cache, cache.bufs, cache.next, cache.prev
      ensures cache.Valid()
      ensures cache.snap == CopyFx(old(cache.snap), dst, src, unpin)
    {
      CopySteps(cache.snap, dst, src, unpin);
      hide BufferCache.Valid, Inv, Modify, Write, Unpin, Release;
      var d := cache.Data(src);
      cache.Store(dst, d);
      cache.Bwrite(dst);
      if unpin {
        cache.Bunpin(dst);
      }
      cache.Brelse(src);
      cache.Brelse(dst);
    }

    /** The two `bread`s at the start of a turn of both copying loops. */
    method ReadBoth(logBlock: nat, home: nat) returns (i: nat, j: nat)
      requires cache.Valid() && Quiet(cache.snap) && logBlock < |cache.snap.disk| && home < |cache.snap.disk|
      requires logBlock != home
      requires AllFree(cache.snap) || (SomeFree(cache.snap) && home in cache.snap.logged)
      modifies cache, cache.bufs
      ensures cache.Valid() && Reading(old(cache.snap), i, logBlock, j, home, cache.snap)
    {
      ghost var s := cache.snap;
      assert SomeFree(s) by { assert AllFree(s) ==> s.bufs[0].refcnt == 0; }
      i := cache.Bread(logBlock);
      ghost var s1 := cache.snap;
      HomeReadable(s, i, logBlock, s1, home);
      j := cache.Bread(home);
      BothRead(s, i, logBlock, s1, j, home, cache.snap);
    }

    /** One turn of the loop in write_log. */
    method WriteLogEntry(tail: nat)
      requires cache.Valid() && Quiet(cache.snap) && SomeFree(cache.snap)
      requires GoodHead(cache.snap.disk, start, lh) && tail < |lh| && lh[tail] in cache.snap.logged
      modifies cache, cache.bufs, cache.next, cache.prev
      ensures cache.Valid()
      ensures |old(cache.snap).view| == |old(cache.snap).disk|
      ensures Put(old(cache.snap), start + tail + 1, old(cache.snap).view[lh[tail]], cache.snap)
      ensures SameRefs(old(cache.snap), cache.snap) && cache.snap.logged == old(cache.snap).logged
    {
      ghost var s := cache.snap;
      var to, from := ReadBoth(start + tail + 1, lh[tail]);
      WriteLogTurn(s, to, start + tail + 1, from, lh[tail], cache.snap);
      hide BufferCache.Valid, Put, SameRefs, CanCopy, CopyFx, Inv;
      CopyAndRelease(to, from, false);
    }

    /** write_log: every logged block copied from the cache to the log, one disk write each. */
    method WriteLog()
      requires cache.Valid() && Quiet(cache.snap) && SomeFree(cache.snap)
      requires GoodHead(cache.snap.disk, start, lh) && forall i :: 0 <= i < |lh| ==> lh[i] in cache.snap.logged
      modifies cache, cache.bufs, cache.next, cache.prev
      ensures |old(cache.snap).view| == |old(cache.snap).disk|
      ensures cache.Valid() && Quiet(cache.snap) && SomeFree(cache.snap)
      ensures LogCopying(old(cache.snap), start, lh, |lh|, cache.snap)
    {
      hide BufferCache.Valid, SomeFree, Quiet, LogCopied, LogCopies, Put;
      ghost var s0 := cache.snap;
      var tail := 0;
      LogCopyingNone(s0, start, lh);
      hide LogCopying;
      while tail < |lh|
        invariant 0 <= tail <= |lh|
        invariant cache.Valid() && Quiet(cache.snap) && SomeFree(cache.snap)
        invariant |s0.view| == |s0.disk| && LogCopying(s0, start, lh, tail, cache.snap)
      {
        ghost var s := cache.snap;
        LogCopyingHead(s0, start, lh, tail, s);
        WriteLogEntry(tail);
        LogCopyingStep(s0, start, lh, tail, s, cache.snap);
        PutQuiet(s, start + tail + 1, s.view[lh[tail]], cache.snap);
        SameRefsFree(s, cache.snap);
        tail := tail + 1;
      }
    }

    /** One turn of the loop in install_trans: log block `tail` copied to its home location. */
    method InstallEntry(tail: nat, recovering: bool)
      requires cache.Valid() && tail < |lh| && Installable(cache.snap, start, lh, tail, recovering)
      requires recovering || Distinct(lh)
      modifies cache, cache.bufs, cache.next, cache.prev
      ensures cache.Valid() && Installable(cache.snap, start, lh, tail + 1, recovering)
      ensures Put(old(cache.snap), lh[tail], old(cache.snap).disk[start + tail + 1], cache.snap)
      ensures cache.snap.logged == old(cache.snap).logged - {lh[tail]}
    {
      hide BufferCache.Valid, Put, Installable, CanCopy, CopyFx, Inv, Reading, GoodHead;
      ghost var s := cache.snap;
      InstallPlaces(s, start, lh, tail, recovering);
      var lbuf, dbuf := ReadBoth(start + tail + 1, lh[tail]);
      InstallTurn(s, start, lh, tail, recovering, lbuf, dbuf, cache.snap);
      CopyAndRelease(dbuf, lbuf, !recovering);
    }

    /** install_trans: every entry copied to its home location, one disk write each. */
    method InstallTrans(recovering: bool)
      requires cache.Valid() && Installable(cache.snap, start, lh, 0, recovering)
      requires recovering || Distinct(lh)
      modifies cache, cache.bufs, cache.next, cache.prev
      ensures |old(cache.snap).view| == |old(cache.snap).disk|
      ensures cache.Valid() && Installable(cache.snap, start, lh, |lh|, recovering)
      ensures Installing(old(cache.snap), start, lh, |lh|, cache.snap)
    {
      hide BufferCache.Valid, Installing, Installable, GoodHead, Put;
      ghost var s0 := cache.snap;
      var tail := 0;
      InstallingNone(s0, start, lh, recovering);
      while tail < |lh|
        invariant 0 <= tail <= |lh|
        invariant cache.Valid() && Installable(cache.snap, start, lh, tail, recovering)
        invariant |s0.view| == |s0.disk| && Installing(s0, start, lh, tail, cache.snap)
      {
        ghost var s := cache.snap;
        InstallEntry(tail, recovering);
        InstallingStep(s0, start, lh, tail, s, cache.snap);
        tail := tail + 1;
      }
    }

    method WriteHead()
      requires cache.Valid() && Quiet(cache.snap) && SomeFree(cache.snap) && start < |cache.snap.disk|
      requires |lh| <= LOGBLOCKS
      requires start !in cache.snap.logged
      modifies cache, cache.bufs, cache.next, cache.prev
      ensures cache.Valid() && Put(old(cache.snap), start, EncodeHead(old(cache.snap).disk[start], lh), cache.snap)
      ensures SameRefs(old(cache.snap), cache.snap) && cache.snap.logged == old(cache.snap).logged
    {
      ghost var s := cache.snap;
      assert start in s.index ==> Cached(s, start);
      var i := cache.Bread(start);
      var hb := cache.Data(i);
      var d := EncodeHeader(hb, lh);
      RewriteEffect(s, i, start, cache.snap, d);
      hide BufferCache.Valid;
      cache.Store(i, d);
      cache.Bwrite(i);
      cache.Brelse(i);
    }

    method ReadHead()
      requires cache.Valid() && Quiet(cache.snap) && SomeFree(cache.snap) && start < |cache.snap.disk|
      requires start !in cache.snap.logged && HeadLen(cache.snap.disk, start) <= LOGBLOCKS
      modifies this`lh, cache, cache.bufs, cache.next, cache.prev
      ensures lh == HeadOf(old(cache.snap).disk, start)
      ensures cache.Valid() && Quiet(cache.snap) && SameRefs(old(cache.snap), cache.snap)
      ensures cache.snap.disk == old(cache.snap).disk && cache.snap.view == old(cache.snap).view
      ensures cache.snap.logged == old(cache.snap).logged && cache.snap.trace == old(cache.snap).trace
    {
      ghost var s := cache.snap;
      assert start in s.index ==> Cached(s, start);
      var i := cache.Bread(start);
      var b := cache.Data(i);
      lh := DecodeHeader(b);
      PeekEffect(s, i, start, cache.snap);
      hide BufferCache.Valid, Inv, Release;
      cache.Brelse(i);
    }

    /** The first half of commit, up to the write that commits. */
    method WriteRecord()
      requires cache.Valid() && Committable(cache.snap, start, lh)
      modifies cache, cache.bufs, cache.next, cache.prev
      ensures |old(cache.snap).view| == |old(cache.snap).disk|
      ensures cache.Valid() && Recorded(old(cache.snap), start, lh, cache.snap)
    {
      ghost var s0 := cache.snap;
      WriteLog();
      ghost var s1 := cache.snap;
      assert start !in s1.logged && |s1.disk| == |s0.disk|;
      WriteHead();
      hide BufferCache.Valid, Committable, LogCopying, Put, Recorded;
      RecordMade(s0, start, lh, s1, cache.snap);
    }

    /** The second half of commit: install the log, then erase the transaction. */
    method InstallAndErase()
      requires cache.Valid() && Installable(cache.snap, start, lh, 0, false) && Distinct(lh)
      requires forall b :: b in cache.snap.logged <==> b in lh
      modifies this`lh, cache, cache.bufs, cache.next, cache.prev
      ensures cache.Valid() && Quiet(cache.snap) && SomeFree(cache.snap) && lh == [] && cache.snap.logged == {}
      ensures cache.snap.disk == ClearHead(Install(old(cache.snap).disk, start, old(lh), |old(lh)|), start)
      ensures cache.snap.trace == old(cache.snap).trace +
                (Installs(old(cache.snap).disk, start, old(lh), |old(lh)|) + [cache.snap.disk])
    {
      ghost var s2, l := cache.snap, lh;
      InstallTrans(false);
      ghost var s3 := cache.snap;
      AfterInstall(s2, start, lh, s3);
      lh := [];
      WriteHead();
      hide BufferCache.Valid;
      SameRefsFree(s3, cache.snap);
      var a := Installs(s2.disk, start, l, |l|);
      assert (s2.trace + a) + [cache.snap.disk] == s2.trace + (a + [cache.snap.disk]);
    }

    /** commit, block write by block write: the disks it passes through are those of CommitTrace, so
        a crash after any of them is covered by LogDisk.CrashAtomicity. */
    method Commit()
      requires cache.Valid() && Committable(cache.snap, start, lh)
      modifies this`lh, cache, cache.bufs, cache.next, cache.prev
      ensures |old(cache.snap).view| == |old(cache.snap).disk|
      ensures cache.Valid() && Committable(cache.snap, start, lh) && lh == [] && cache.snap.logged == {}
      ensures cache.snap.trace == old(cache.snap).trace +
                (if old(lh) == [] then [] else CommitTrace(old(cache.snap).disk, start, old(cache.snap).view, old(lh)))
      ensures HomeSame(start, cache.snap.disk, old(cache.snap).view)
    {
      ghost var s0, l := cache.snap, lh;
      if |lh| > 0 {
        WriteRecord();
        ghost var c := cache.snap.disk;
        InstallAndErase();
        CommitDurable(s0, start, l, cache.snap.disk);
        Regroup(s0.trace, LogCopies(s0.disk, start, s0.view, l, |l|), c, Installs(c, start, l, |l|), cache.snap.disk);
      }
    }

    /** The end of end_op for the last operation out: commit, then let new operations in. */
    method CommitAndReopen()
      requires Valid() && committing && Quiet(cache.snap) && SomeFree(cache.snap)
      modifies this`lh, this`committing, cache, cache.bufs, cache.next, cache.prev
      ensures Valid() && LogSpace.CommitDone(old(Abs()), Abs())
      ensures HomeSame(start, cache.snap.disk, old(cache.snap).view)
    {
      ghost var s := Abs();
      Commit();
      committing := false;
      LogSpace.CommitDoneInv(s, Abs());
    }

    /** recover_from_log at boot. */
    method RecoverFromLog()
      requires cache.Valid() && Quiet(cache.snap) && AllFree(cache.snap) && cache.snap.logged == {}
      requires GoodDisk(cache.snap.disk, start)
      modifies this`lh, cache, cache.bufs, cache.next, cache.prev
      ensures cache.Valid() && Committable(cache.snap, start, lh) && lh == []
      ensures cache.snap.disk == Recover(old(cache.snap).disk, start)
      ensures cache.snap.trace == old(cache.snap).trace + RecoveryTrace(old(cache.snap).disk, start)
    {
      ghost var s0 := cache.snap;
      assert s0.bufs[0].refcnt == 0;
      ReadHead();
      ghost var s1 := cache.snap;
      InstallTrans(true);
      ghost var s2 := cache.snap;
      assert s2.bufs[0].refcnt == 0;
      lh := [];
      WriteHead();
      SameRefsFree(s2, cache.snap);
      ClearTwice(s2.disk, start);
    }
  }
}
