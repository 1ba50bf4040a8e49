/** What a crash leaves of the file system: kernel/fs.c over kernel/log.c, one transaction after the other, each of
    any operations at once. */
module FsCrash {
  import opened Blocks
  import opened Dinodes
  import opened LogDisk
  import opened LogRuns
  import opened FsState
  import opened FsContent
  import opened FileSystem
  import opened FsTogether

  /** The log lies in the metadata, apart from the inodes and the free map. */
  ghost predicate LogApart(l: Layout, start: nat)
  {
    && start + LOGBLOCKS < l.nmeta && (forall b :: 0 <= b < l.size ==> Home(start, MapBlock(l, b)))
    && forall i :: 0 <= i < l.ninodes ==> Home(start, InodeBlock(l, i))
  }

  /** The inodes in use that a disk has. */
  function InodesOn(l: Layout, d: Image): (m: map<nat, Inode>)
  {
    map i: nat | i < l.ninodes && InUse(DinodeIn(l, d, i)) :: DinodeIn(l, d, i)
  }

  /** The file system found on a disk: its inodes are read from it.  `owner` only says which inode address holds
      each block; that it says so truly is part of `Good`. */
  function Mount(l: Layout, d: Image, owner: map<nat, Slot>): (g: Fs)
  {
    Fs(l, d, InodesOn(l, d), owner, map[], [])
  }

  /** What a disk with the same home blocks has for inodes are those in memory. */
  lemma InodesRead(fs: Fs, start: nat, r: Image)
    requires Inv(fs) && Synced(fs) && LogApart(fs.lay, start) && HomeSame(start, r, fs.blocks)
    ensures InodesOn(fs.lay, r) == fs.inodes
  {
    hide DinodeIn, Inv, Synced, InodeBlock, LogApart, HomeSame, SyncedAt;
    InvShape(fs);
    forall i: nat | i < fs.lay.ninodes
      ensures DinodeIn(fs.lay, r, i) == Dinode(fs, i) && (i in fs.inodes <==> InUse(Dinode(fs, i)))
      ensures i in fs.inodes ==> fs.inodes[i] == Dinode(fs, i)
    {
      DinodeRead(fs, start, r, i);
    }
    assert forall i :: i in InodesOn(fs.lay, r) <==> i in fs.inodes;
  }

  lemma DinodeRead(fs: Fs, start: nat, r: Image, i: nat)
    requires Shape(fs) && Synced(fs) && LogApart(fs.lay, start) && HomeSame(start, r, fs.blocks) && i < fs.lay.ninodes
    ensures DinodeIn(fs.lay, r, i) == Dinode(fs, i) && (i in fs.inodes <==> InUse(Dinode(fs, i)))
    ensures i in fs.inodes ==> fs.inodes[i] == Dinode(fs, i)
  {
    MapBelowMeta(fs.lay);
    assert InodeBlock(fs.lay, i) < fs.lay.bmapstart && Home(start, InodeBlock(fs.lay, i));
    hide DinodeAt, Shape, Home;
    assert SyncedAt(fs, i);
  }

  lemma SameSlotsHome(fs: Fs, start: nat, r: Image, g: Fs)
    requires Inv(fs) && fs.cut == map[] && LogApart(fs.lay, start) && HomeSame(start, r, fs.blocks)
    requires g == Mount(fs.lay, r, fs.owner) && g.inodes == fs.inodes
    ensures SameSlots(fs, g)
  {
    hide InodesOn;
    forall s: Slot {:trigger Resolve(g, s)} | GoodSlot(s) ensures Resolve(g, s) == Resolve(fs, s) {
      if s.Entry? && Root(fs, s.ino) != 0 {
        RootOwned(fs, s.ino);
        assert Root(g, s.ino) == Root(fs, s.ino) && Home(start, Root(fs, s.ino));
      }
    }
  }

  lemma SameInv(fs: Fs, start: nat, r: Image, g: Fs)
    requires Inv(fs) && fs.cut == map[] && LogApart(fs.lay, start) && HomeSame(start, r, fs.blocks)
    requires g == Mount(fs.lay, r, fs.owner) && g.inodes == fs.inodes
    ensures Inv(g) && SameSlots(fs, g)
  {
    hide InodesOn;
    SameSlotsHome(fs, start, r, g);
    assert Shape(g);
    forall x | 0 <= x < fs.lay.size ensures Used(g, x) == Used(fs, x) {
      assert Home(start, MapBlock(fs.lay, x)) && MapBlock(fs.lay, x) < fs.lay.nmeta;
    }
    hide Inv, SameSlots;
    InvSame(fs, g);
  }

  /** Inodes, ownership, files and their contents are a matter of the home blocks alone. */
  lemma SameOnImage(fs: Fs, start: nat, r: Image)
    requires Good(fs) && Synced(fs) && LogApart(fs.lay, start) && HomeSame(start, r, fs.blocks)
    ensures var g := Mount(fs.lay, r, fs.owner);
            && Good(g) && Synced(g) && g.inodes == fs.inodes
            && forall i :: i in fs.inodes ==> SameFile(fs, g, i)
  {
    var g := Mount(fs.lay, r, fs.owner);
    InodesRead(fs, start, r);
    SameInv(fs, start, r, g);
    hide Inv, InodesOn, SameSlots, LogApart, FileByte, Synced;
    forall i | i in fs.inodes ensures SameFile(fs, g, i) && Backed(g, i, fs.inodes[i].size) {
      SameFileHome(fs, start, r, g, i);
    }
    MountSynced(fs, r);
  }

  /** What is read from a disk is as on the disk. */
  lemma MountSynced(fs: Fs, r: Image)
    ensures Synced(Mount(fs.lay, r, fs.owner))
  {
    var g := Mount(fs.lay, r, fs.owner);
    forall i: nat | i < g.lay.ninodes ensures SyncedAt(g, i) {
      assert Dinode(g, i) == DinodeIn(fs.lay, r, i);
    }
  }

  lemma SameFileHome(fs: Fs, start: nat, r: Image, g: Fs, i: nat)
    requires Good(fs) && LogApart(fs.lay, start) && HomeSame(start, r, fs.blocks) && i in fs.inodes
    requires g == Mount(fs.lay, r, fs.owner) && g.inodes == fs.inodes && SameSlots(fs, g)
    ensures SameFile(fs, g, i) && Backed(g, i, fs.inodes[i].size)
  {
    hide InodesOn;
    assert Backed(fs, i, fs.inodes[i].size);
    forall bn: nat {:trigger Addr(g, i, bn)} | bn < MAXFILE ensures Addr(g, i, bn) == Addr(fs, i, bn) {
      assert Resolve(g, DataSlot(i, bn)) == Resolve(fs, DataSlot(i, bn));
    }
    forall k | 0 <= k < fs.inodes[i].size ensures FileByte(g, i, k) == FileByte(fs, i, k) {
      BlockOf(k, fs.inodes[i].size);
      AddrOwned(fs, i, k / BSIZE);
      DataIsHome(fs, i, k / BSIZE, start);
    }
  }

  lemma DataIsHome(fs: Fs, i: nat, bn: nat, start: nat)
    requires Inv(fs) && bn < MAXFILE && Addr(fs, i, bn) != 0 && LogApart(fs.lay, start)
    ensures Addr(fs, i, bn) < |fs.blocks| && Home(start, Addr(fs, i, bn))
  {
    AddrOwned(fs, i, bn);
    assert OwnerOk(fs, Addr(fs, i, bn));
  }

  // ----- transactions

  /** In the log are at least the home blocks that were logged. */
  ghost predicate InHead(start: nat, log: seq<nat>, lh: seq<Word>)
  {
    forall b: nat {:trigger b in log} :: b in log && Home(start, b) ==> b in lh
  }

  /** The states at the commits, as readers see them. */
  ghost function Views(fss: seq<Fs>): (vs: seq<Image>)
    ensures |vs| == |fss| && forall k :: 0 <= k < |fss| ==> vs[k] == fss[k].blocks
  {
    seq(|fss|, k requires 0 <= k < |fss| => fss[k].blocks)
  }

  /** A run of the file system: runs[k] are the steps of the operations of the k-th transaction, in any interleaving,
      which take fss[k] to fss[k + 1]; disks[k] is the disk before its commit and heads[k] what it logs. */
  ghost predicate Transactions(start: nat, fss: seq<Fs>, runs: seq<seq<Step>>, disks: seq<Image>, heads: seq<seq<Word>>)
  {
    && |fss| == |disks| == |heads| + 1 == |runs| + 1
    && Good(fss[0]) && Synced(fss[0]) && LogApart(fss[0].lay, start)
    && start < |disks[0]| && HeadLen(disks[0], start) == 0 && HomeSame(start, disks[0], fss[0].blocks)
    && (forall k :: 0 <= k < |heads| ==>
          Transaction(start, fss[k], runs[k], fss[k + 1], disks[k], heads[k], disks[k + 1]))
  }

  ghost predicate Transaction(start: nat, f: Fs, run: seq<Step>, g: Fs, d: Image, lh: seq<Word>, e: Image)
  {
    && Together(BeginOp(f), run, g) && InHead(start, g.log, lh)
    && GoodHead(d, start, lh) && |d| == |g.blocks| && e == Complete(d, start, g.blocks, lh)
  }

  /** Only logged blocks change. */
  lemma ChangedLogged(start: nat, f: Fs, g: Fs, lh: seq<Word>)
    requires f.log == [] && Logged(f, g) && InHead(start, g.log, lh)
    ensures |g.blocks| == |f.blocks|
    ensures forall b :: 0 <= b < |f.blocks| && Home(start, b) && g.blocks[b] != f.blocks[b] ==> b in lh
  {
    assert g.log[0..] == g.log;
  }

  lemma TransactionStep(start: nat, f: Fs, run: seq<Step>, g: Fs, d: Image, lh: seq<Word>, e: Image)
    requires Transaction(start, f, run, g, d, lh, e) && Good(f) && Synced(f)
    ensures Good(g) && Synced(g) && g.lay == f.lay && CommitStep(start, d, f.blocks, lh, e, g.blocks)
  {
    hide Good, Synced, Complete, Together, Logged, InHead;
    BeginGood(f);
    SyncedSame(f, BeginOp(f));
    TogetherGood(BeginOp(f), run, g);
    ChangedLogged(start, BeginOp(f), g, lh);
  }

  lemma {:induction false} RunGood(start: nat, fss: seq<Fs>, runs: seq<seq<Step>>, disks: seq<Image>,
                                   heads: seq<seq<Word>>, k: nat)
    requires Transactions(start, fss, runs, disks, heads) && k <= |heads|
    ensures Good(fss[k]) && Synced(fss[k]) && fss[k].lay == fss[0].lay
    ensures k > 0 ==> CommitStep(start, disks[k - 1], fss[k - 1].blocks, heads[k - 1], disks[k], fss[k].blocks)
  {
    hide Good, Synced, Transaction, CommitStep;
    if k > 0 {
      RunGood(start, fss, runs, disks, heads, k - 1);
      assert Transaction(start, fss[k - 1], runs[k - 1], fss[k], disks[k - 1], heads[k - 1], disks[k]);
      TransactionStep(start, fss[k - 1], runs[k - 1], fss[k], disks[k - 1], heads[k - 1], disks[k]);
    }
  }

  lemma RunCommits(start: nat, fss: seq<Fs>, runs: seq<seq<Step>>, disks: seq<Image>, heads: seq<seq<Word>>)
    requires Transactions(start, fss, runs, disks, heads)
    ensures Commits(start, disks, Views(fss), heads)
  {
    hide CommitStep, Good, Synced, LogApart, Transaction;
    var vs := Views(fss);
    forall k | 0 <= k < |heads| ensures CommitStep(start, disks[k], vs[k], heads[k], disks[k + 1], vs[k + 1]) {
      RunGood(start, fss, runs, disks, heads, k + 1);
    }
  }

  /** Whatever block write of whatever transaction a crash follows, and however often recovery crashes too: the file
      system read from the recovered disk is that at the end of a whole number of transactions.  Its inodes are
      those, every file has the contents it had then, ownership is exact and no file has a hole. */
  lemma CrashKeepsFiles(start: nat, fss: seq<Fs>, runs: seq<seq<Step>>, disks: seq<Image>, heads: seq<seq<Word>>,
                        k: nat, j: nat, ds: seq<Image>)
    requires Transactions(start, fss, runs, disks, heads) && k < |heads|
    requires GoodHead(disks[k], start, heads[k]) && |fss[k + 1].blocks| == |disks[k]|
    requires j < |CommitTrace(disks[k], start, fss[k + 1].blocks, heads[k])|
    requires CrashRun(ds, start) && ds[0] == CommitTrace(disks[k], start, fss[k + 1].blocks, heads[k])[j]
    ensures GoodDisk(ds[|ds| - 1], start)
    ensures var n := if j < |heads[k]| then k else k + 1;
            var g := Mount(fss[n].lay, Recover(ds[|ds| - 1], start), fss[n].owner);
            Good(g) && g.inodes == fss[n].inodes && forall i :: i in fss[n].inodes ==> SameFile(fss[n], g, i)
  {
    var n := if j < |heads[k]| then k else k + 1;
    RunCommits(start, fss, runs, disks, heads);
    RunGood(start, fss, runs, disks, heads, n);
    assert LogApart(fss[n].lay, start);
    hide Transactions, Commits, Good, CommitTrace, CrashRun, Recover, SameFile, LogApart, Synced, Mount;
    RunAtomic(start, disks, Views(fss), heads, k, j, ds);
    SameOnImage(fss[n], start, Recover(ds[|ds| - 1], start));
  }

  /** The same for a crash between two commits. */
  lemma CrashAtRest(start: nat, fss: seq<Fs>, runs: seq<seq<Step>>, disks: seq<Image>, heads: seq<seq<Word>>,
                    k: nat, ds: seq<Image>)
    requires Transactions(start, fss, runs, disks, heads) && k <= |heads|
    requires CrashRun(ds, start) && ds[0] == disks[k]
    ensures GoodDisk(ds[|ds| - 1], start)
    ensures var g := Mount(fss[k].lay, Recover(ds[|ds| - 1], start), fss[k].owner);
            Good(g) && g.inodes == fss[k].inodes && forall i :: i in fss[k].inodes ==> SameFile(fss[k], g, i)
  {
    RunCommits(start, fss, runs, disks, heads);
    RunGood(start, fss, runs, disks, heads, k);
    assert LogApart(fss[k].lay, start);
    hide Transactions, Commits, Good, CrashRun, Recover, SameFile, LogApart, Synced, Mount;
    RunAtRest(start, disks, Views(fss), heads, k, ds);
    SameOnImage(fss[k], start, Recover(ds[|ds| - 1], start));
  }
}
