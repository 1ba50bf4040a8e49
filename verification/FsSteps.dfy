/** What operations of kernel/fs.c do to the shared state, step by step.  writei and itrunc work on an inode whose
    sleep lock they hold; begin_op lets any number of them run at once, on different inodes, and commits them
    together.  A step is what happens while one buffer is locked, or between two such times. */
module FsSteps {
  import opened Blocks
  import opened Dinodes
  import opened Bits
  import opened FsState
  import opened FsContent
  import opened FsFree

  /** The block balloc has found and bmap not yet stored: marked in the free map, then zeroed. */
  datatype Held = Nothing | Marked(b: nat) | Zeroed(b: nat)

  /** An operation on an inode; `dirty` if its in-memory copy has changed since the last iupdate. */
  datatype Op = Op(held: Held, dirty: bool)

  datatype Act =
    | MarkBlock(b: nat) | ZeroIt | StoreAddr(k: nat) | StoreEntry(j: nat)
    | PutData(bn: nat, d: Block)
    | DropAddr(k: nat) | StartCut | DropEntry | DropRoot
    | Update(n: Word)

  datatype Local = Local(fs: Fs, op: Op)

  function HeldBlock(op: Op): (b: nat) { if op.held.Nothing? then 0 else op.held.b }

  /** An operation on inode i may do a. */
  ghost predicate CanDo(l: Local, i: nat, a: Act)
  {
    var fs, op := l.fs, l.op;
    && Shape(fs) && i in fs.inodes
    && match a
       case MarkBlock(b) => op.held.Nothing? && b < fs.lay.size && MapBlock(fs.lay, b) < |fs.blocks| && !Used(fs, b)
       case ZeroIt => op.held.Marked? && op.held.b < |fs.blocks|
       case StoreAddr(k) =>
         op.held.Zeroed? && op.held.b < 0x1_0000_0000 && k <= NDIRECT && fs.inodes[i].addrs[k] == 0
       case StoreEntry(j) =>
         && op.held.Zeroed? && op.held.b < 0x1_0000_0000 && j < NINDIRECT && 0 < Root(fs, i) < |fs.blocks|
         && i !in fs.cut && Resolve(fs, Entry(i, j)) == 0
       case PutData(bn, _) => bn < MAXFILE && 0 < Addr(fs, i, bn) < |fs.blocks|
       case DropAddr(k) =>
         k < NDIRECT && fs.inodes[i].addrs[k] != 0 && MapBlock(fs.lay, fs.inodes[i].addrs[k]) < |fs.blocks|
       case StartCut => Root(fs, i) != 0 && i !in fs.cut
       case DropEntry =>
         && i in fs.cut && fs.cut[i] < NINDIRECT && 0 < Root(fs, i) < |fs.blocks|
         && MapBlock(fs.lay, WordAt(fs.blocks[Root(fs, i)], fs.cut[i])) < |fs.blocks|
       case DropRoot => CutAt(fs, i, NINDIRECT) && Root(fs, i) != 0 && MapBlock(fs.lay, Root(fs, i)) < |fs.blocks|
       case Update(n) => i !in fs.cut && CanUpdate(fs, i) && n <= MAXBYTES && Backed(fs, i, n)
  }

  ghost function Do(l: Local, i: nat, a: Act): (r: Local)
    requires CanDo(l, i, a)
  {
    var fs, op := l.fs, l.op;
    match a
    case MarkBlock(b) => Local(MarkLoose(fs, b), op.(held := Marked(b)))
    case ZeroIt => Local(PutBlock(fs, op.held.b, ZeroBlock()), op.(held := Zeroed(op.held.b)))
    case StoreAddr(k) => Local(AttachDirect(fs, i, k, op.held.b), Op(Nothing, true))
    case StoreEntry(j) => Local(AttachEntry(fs, i, j, op.held.b), op.(held := Nothing))
    case PutData(bn, d) => Local(PutBlock(fs, Addr(fs, i, bn), d), op)
    case DropAddr(k) => Local(FreeAddr(fs, i, k), op.(dirty := true))
    case StartCut => Local(fs.(cut := fs.cut[i := 0]), op)
    case DropEntry => Local(CutEntry(fs, i, fs.cut[i]), op)
    case DropRoot => Local(RootFreed(fs, i), op.(dirty := true))
    case Update(n) => Local(SetSize(fs, i, n), op.(dirty := false))
  }

  /** `bfree(ip->addrs[NDIRECT]); ip->addrs[NDIRECT] = 0;` once every entry is freed. */
  function RootFreed(fs: Fs, i: nat): (r: Fs)
    requires i in fs.inodes && |fs.inodes[i].addrs| == NDIRECT + 1
    requires MapBlock(fs.lay, fs.inodes[i].addrs[NDIRECT]) < |fs.blocks|
  {
    var m := FreeAddr(fs, i, NDIRECT);
    m.(cut := fs.cut - {i})
  }

  // ----- what a step leaves alone

  /** From fs to r nothing has changed for inodes other than i, in memory, on the disk or in their data, and inode i
      has kept its type. */
  ghost predicate Elsewhere(fs: Fs, r: Fs, i: nat)
  {
    && r.lay == fs.lay && |r.blocks| == |fs.blocks| && r.inodes.Keys == fs.inodes.Keys && i in fs.inodes
    && r.inodes[i].kind == fs.inodes[i].kind
    && (forall x :: x in fs.inodes && x != i ==> r.inodes[x] == fs.inodes[x])
    && (forall x :: x != i ==> (x in r.cut <==> x in fs.cut))
    && (forall x: nat {:trigger Dinode(r, x)} :: x < fs.lay.ninodes && x != i ==> Dinode(r, x) == Dinode(fs, x))
    && (forall x: nat, y: nat {:trigger SameData(fs, r, x, y)} :: y < MAXFILE && x != i && Addr(fs, x, y) != 0 ==>
          SameData(fs, r, x, y))
  }

  /** Apart from block `was`, which the operation held, and block `now`, which it holds, the blocks that are
      allocated and not stored are the same, with the same contents. */
  ghost predicate LooseStep(fs: Fs, r: Fs, was: nat, now: nat)
  {
    && (forall b :: b in fs.owner && fs.owner[b].Loose? && b != was ==>
          b in r.owner && r.owner[b].Loose? && b < |r.blocks| && b < |fs.blocks| && r.blocks[b] == fs.blocks[b])
    && (forall b :: b in r.owner && r.owner[b].Loose? && b != now ==> b in fs.owner && fs.owner[b].Loose? && b != was)
  }

  ghost predicate HeldOk(l: Local)
  {
    l.op.held.Nothing? ||
    (l.op.held.b in l.fs.owner && l.fs.owner[l.op.held.b].Loose? && l.op.held.b < |l.fs.blocks|
     && (l.op.held.Zeroed? ==> l.fs.blocks[l.op.held.b] == ZeroBlock()))
  }

  ghost predicate Goes(l: Local, r: Local, i: nat)
  {
    && Inv(r.fs) && HeldOk(r) && Elsewhere(l.fs, r.fs, i) && Logged(l.fs, r.fs)
    && LooseStep(l.fs, r.fs, HeldBlock(l.op), HeldBlock(r.op))
  }

  lemma KeptElsewhere(fs: Fs, r: Fs, i: nat, bn: nat)
    requires Kept(fs, r, i, bn) && |r.blocks| == |fs.blocks| && i in fs.inodes && r.cut == fs.cut
    ensures Elsewhere(fs, r, i)
  {
    hide Dinode;
  }

  lemma ShrinksElsewhere(fs: Fs, r: Fs, i: nat, b: nat)
    requires Shrinks(fs, r, i, b) && i in fs.inodes && forall x :: x != i ==> (x in r.cut <==> x in fs.cut)
    ensures Elsewhere(fs, r, i) && LooseStep(fs, r, 0, 0)
  {
    hide Inv, MapsLogged, Dinode, Resolve;
    forall x: nat, y: nat {:trigger SameData(fs, r, x, y)} | y < MAXFILE && x != i && Addr(fs, x, y) != 0
      ensures SameData(fs, r, x, y)
    {
      AddrOwned(fs, x, y);
      SameDataHere(fs, r, x, y);
    }
    forall c | c in fs.owner && fs.owner[c].Loose? ensures fs.lay.nmeta <= c < |fs.blocks| && c != 0 {
      LooseIsData(fs, c);
    }
  }

  /** Metadata is not loose, block 0 least of all. */
  lemma LooseIsData(fs: Fs, b: nat)
    requires Inv(fs) && b in fs.owner && fs.owner[b].Loose?
    ensures 0 < fs.lay.nmeta <= b < |fs.blocks| == fs.lay.size < 0x1_0000_0000
  {
    assert OwnerOk(fs, b);
  }

  lemma ZeroNotLoose(fs: Fs)
    requires Inv(fs)
    ensures !(0 in fs.owner && fs.owner[0].Loose?)
  {
    if 0 in fs.owner && fs.owner[0].Loose? {
      LooseIsData(fs, 0);
    }
  }

  // ----- the steps

  lemma MarkLooseStep(fs: Fs, b: nat)
    requires Inv(fs) && b < fs.lay.size && b !in fs.owner && MapBlock(fs.lay, b) < |fs.blocks|
    ensures LooseStep(fs, MarkLoose(fs, b), 0, b)
  {
    var m := MapBlock(fs.lay, b);
    assert m < fs.lay.nmeta;
    hide SetBitAt, MapBlock;
    forall c | c in fs.owner && fs.owner[c].Loose? ensures c != m && c < |fs.blocks| && c != 0 {
      LooseIsData(fs, c);
    }
  }

  lemma MarkLogged(fs: Fs, b: nat)
    requires MapBlock(fs.lay, b) < |fs.blocks|
    ensures Logged(fs, MarkLoose(fs, b))
  {
    var m := MapBlock(fs.lay, b);
    hide Logged, SetBitAt;
    PutLogged(fs, m, SetBitAt(fs.blocks[m], b % BPB, true));
    LoggedSame(fs, Mark(fs, b, true), MarkLoose(fs, b));
  }

  lemma MarkFacts(fs: Fs, b: nat)
    requires MapBlock(fs.lay, b) < |fs.blocks|
    ensures var r := MarkLoose(fs, b);
            |r.blocks| == |fs.blocks| && r.cut == fs.cut && r.owner == fs.owner[b := Loose] && r.lay == fs.lay
  {
  }

  lemma MarkOk(fs: Fs, i: nat, b: nat)
    requires Inv(fs) && i in fs.inodes && b < fs.lay.size && MapBlock(fs.lay, b) < |fs.blocks| && !Used(fs, b)
    ensures var r := MarkLoose(fs, b); Inv(r) && Elsewhere(fs, r, i)
    ensures b !in fs.owner && b < |fs.blocks|
  {
    assert b !in fs.owner && fs.lay.size == |fs.blocks|;
    hide Inv, Kept, Elsewhere, SameSlots, Used, MarkLoose;
    MarkFacts(fs, b);
    MarkTakes(fs, b, i, MarkLoose(fs, b));
    KeptElsewhere(fs, MarkLoose(fs, b), i, NONE);
  }

  lemma DoMark(l: Local, i: nat, b: nat)
    requires Inv(l.fs) && HeldOk(l) && CanDo(l, i, MarkBlock(b))
    ensures Goes(l, Do(l, i, MarkBlock(b)), i)
  {
    hide Inv, Logged, Elsewhere, LooseStep, MarkLoose, Used;
    MarkOk(l.fs, i, b);
    MarkFacts(l.fs, b);
    MarkLogged(l.fs, b);
    MarkLooseStep(l.fs, b);
  }

  /** A block written that is no loose one, or the one held. */
  lemma WriteLooseStep(fs: Fs, x: nat, d: Block, held: nat)
    requires Inv(fs) && x < |fs.blocks| && (x in fs.owner && fs.owner[x].Loose? ==> x == held)
    ensures LooseStep(fs, PutBlock(fs, x, d), held, held)
  {
    forall c | c in fs.owner && fs.owner[c].Loose? ensures c < |fs.blocks| {
      LooseIsData(fs, c);
    }
  }

  lemma DoZero(l: Local, i: nat)
    requires Inv(l.fs) && HeldOk(l) && CanDo(l, i, ZeroIt)
    ensures Goes(l, Do(l, i, ZeroIt), i)
  {
    var fs, b := l.fs, l.op.held.b;
    hide Inv, Kept, Logged, Elsewhere, LooseStep, SameSlots;
    WriteKeeps(fs, b, ZeroBlock(), i, NONE);
    PutLogged(fs, b, ZeroBlock());
    WriteLooseStep(fs, b, ZeroBlock(), b);
    KeptElsewhere(fs, PutBlock(fs, b, ZeroBlock()), i, NONE);
  }

  /** The held block finds a slot. */
  lemma StoreLooseStep(fs: Fs, r: Fs, b: nat, x: nat)
    requires Inv(fs) && b in fs.owner && fs.owner[b].Loose? && b in r.owner && !r.owner[b].Loose?
    requires r.owner == fs.owner[b := r.owner[b]] && |r.blocks| == |fs.blocks|
    requires x in fs.owner && !fs.owner[x].Loose?
    requires forall y :: 0 <= y < |fs.blocks| && y != x ==> r.blocks[y] == fs.blocks[y]
    ensures LooseStep(fs, r, b, 0)
  {
    hide Inv;
    forall c | c in fs.owner && fs.owner[c].Loose? ensures c < |fs.blocks| && c != 0 {
      LooseIsData(fs, c);
    }
  }

  lemma DoStoreAddr(l: Local, i: nat, k: nat)
    requires Inv(l.fs) && HeldOk(l) && CanDo(l, i, StoreAddr(k))
    ensures Goes(l, Do(l, i, StoreAddr(k)), i)
  {
    hide Inv, Kept, Logged, Elsewhere, LooseStep, Resolve;
    var fs, b := l.fs, l.op.held.b;
    var r := AttachDirect(fs, i, k, b);
    ZeroNotLoose(fs);
    ZeroOwned(fs);
    AttachDirectInv(fs, i, k, b);
    LoggedNone(fs);
    LoggedSame(fs, fs, r);
    StoreLooseStep(fs, r, b, 0);
    KeptElsewhere(fs, r, i, if k < NDIRECT then k else NONE);
  }

  lemma ZeroOwned(fs: Fs)
    requires Inv(fs)
    ensures 0 in fs.owner && !fs.owner[0].Loose?
  {
    assert 0 in fs.owner && OwnerOk(fs, 0);
  }

  lemma LoggedNone(fs: Fs)
    ensures Logged(fs, fs)
  {
  }

  lemma DoStoreEntry(l: Local, i: nat, j: nat)
    requires Inv(l.fs) && HeldOk(l) && CanDo(l, i, StoreEntry(j))
    ensures Goes(l, Do(l, i, StoreEntry(j)), i)
  {
    var fs, b, root := l.fs, l.op.held.b, Root(l.fs, i);
    var r := AttachEntry(fs, i, j, b);
    RootOwned(fs, i);
    hide Inv, Kept, Logged, Elsewhere, LooseStep, Resolve, SetWord;
    AttachEntryInv(fs, i, j, b);
    AttachEntryKept(fs, i, j, b);
    PutLogged(fs, root, SetWord(fs.blocks[root], j, b));
    LoggedSame(fs, PutBlock(fs, root, SetWord(fs.blocks[root], j, b)), r);
    StoreLooseStep(fs, r, b, root);
    KeptElsewhere(fs, r, i, NDIRECT + j);
  }

  lemma DoPutData(l: Local, i: nat, bn: nat, d: Block)
    requires Inv(l.fs) && HeldOk(l) && CanDo(l, i, PutData(bn, d))
    ensures Goes(l, Do(l, i, PutData(bn, d)), i)
  {
    var fs, a := l.fs, Addr(l.fs, i, bn);
    hide Inv, Kept, Logged, Elsewhere, LooseStep, SameSlots, Resolve;
    AddrOwned(fs, i, bn);
    WriteKeeps(fs, a, d, i, bn);
    PutLogged(fs, a, d);
    WriteLooseStep(fs, a, d, HeldBlock(l.op));
    KeptElsewhere(fs, PutBlock(fs, a, d), i, bn);
  }

  /** A loose block stays as it is when another is freed. */
  lemma HeldStays(l: Local, r: Fs, op: Op)
    requires HeldOk(l) && op.held == l.op.held && LooseStep(l.fs, r, 0, 0) && Inv(l.fs) && Inv(r)
    ensures HeldOk(Local(r, op)) && LooseStep(l.fs, r, HeldBlock(l.op), HeldBlock(op))
  {
    hide Inv;
    ZeroNotLoose(l.fs);
    ZeroNotLoose(r);
    if !l.op.held.Nothing? {
      LooseIsData(l.fs, l.op.held.b);
    }
  }

  lemma ShrinksLogged(fs: Fs, r: Fs, i: nat, b: nat)
    requires Shrinks(fs, r, i, b)
    ensures Logged(fs, r)
  {
  }

  lemma DoDropAddr(l: Local, i: nat, k: nat)
    requires Inv(l.fs) && HeldOk(l) && CanDo(l, i, DropAddr(k))
    ensures Goes(l, Do(l, i, DropAddr(k)), i)
  {
    var fs := l.fs;
    var r := FreeAddr(fs, i, k);
    assert r.cut == fs.cut;
    hide Inv, Shrinks, Logged, Elsewhere, LooseStep, FreeAddr, HeldOk;
    FreeAddrInv(fs, i, k);
    FreeAddrShrinks(fs, i, k);
    ShrinksLogged(fs, r, i, fs.inodes[i].addrs[k]);
    ShrinksElsewhere(fs, r, i, fs.inodes[i].addrs[k]);
    HeldStays(l, r, l.op.(dirty := true));
  }

  /** Which entries have been freed matters to no other inode. */
  lemma CutElsewhere(fs: Fs, r: Fs, i: nat, c: map<nat, nat>)
    requires Elsewhere(fs, r, i) && (forall x :: x != i ==> (x in c <==> x in r.cut))
    requires forall x :: x != i && x in c ==> c[x] == r.cut[x]
    ensures Elsewhere(fs, r.(cut := c), i)
  {
    var g := r.(cut := c);
    forall x: nat {:trigger Dinode(g, x)} | x < fs.lay.ninodes && x != i ensures Dinode(g, x) == Dinode(fs, x) {
      assert Dinode(g, x) == Dinode(r, x);
    }
    forall x: nat, y: nat {:trigger SameData(fs, g, x, y)} | y < MAXFILE && x != i && Addr(fs, x, y) != 0
      ensures SameData(fs, g, x, y)
    {
      assert SameData(fs, r, x, y);
      assert Addr(g, x, y) == Addr(r, x, y);
    }
  }

  lemma SelfElsewhere(fs: Fs, i: nat)
    requires Inv(fs) && i in fs.inodes
    ensures Elsewhere(fs, fs, i) && LooseStep(fs, fs, 0, 0) && Logged(fs, fs)
  {
    forall x: nat, y: nat {:trigger SameData(fs, fs, x, y)} | y < MAXFILE && Addr(fs, x, y) != 0
      ensures SameData(fs, fs, x, y)
    {
      AddrOwned(fs, x, y);
    }
    forall c | c in fs.owner && fs.owner[c].Loose? ensures c < |fs.blocks| && c != 0 {
      LooseIsData(fs, c);
    }
  }

  lemma DoStartCut(l: Local, i: nat)
    requires Inv(l.fs) && HeldOk(l) && CanDo(l, i, StartCut)
    ensures Goes(l, Do(l, i, StartCut), i)
  {
    var fs := l.fs;
    var r := fs.(cut := fs.cut[i := 0]);
    hide Inv, Logged, Elsewhere;
    CutStart(fs, i);
    SelfElsewhere(fs, i);
    CutElsewhere(fs, fs, i, fs.cut[i := 0]);
    LoggedSame(fs, fs, r);
    HeldStays(l, r, l.op);
  }

  lemma DoDropEntry(l: Local, i: nat)
    requires Inv(l.fs) && HeldOk(l) && CanDo(l, i, DropEntry)
    ensures Goes(l, Do(l, i, DropEntry), i)
  {
    var fs, j := l.fs, l.fs.cut[i];
    var b, r := WordAt(fs.blocks[Root(fs, i)], j), CutEntry(fs, i, j);
    assert forall x :: x != i ==> (x in r.cut <==> x in fs.cut);
    hide Inv, Shrinks, Logged, Elsewhere, LooseStep, HeldOk, WordAt, Release;
    CutEntryInv(fs, i, j);
    if b != 0 {
      CutEntryShrinks(fs, i, j, b);
      ShrinksLogged(fs, r, i, b);
      ShrinksElsewhere(fs, r, i, b);
    } else {
      SelfElsewhere(fs, i);
      CutElsewhere(fs, fs, i, fs.cut[i := j + 1]);
      LoggedSame(fs, fs, r);
      SameLooses(fs, fs, r);
    }
    HeldStays(l, r, l.op);
  }

  lemma DoDropRoot(l: Local, i: nat)
    requires Inv(l.fs) && HeldOk(l) && CanDo(l, i, DropRoot)
    ensures Goes(l, Do(l, i, DropRoot), i)
  {
    var fs := l.fs;
    var m, r := FreeAddr(fs, i, NDIRECT), RootFreed(fs, i);
    assert m.cut == fs.cut;
    hide Inv, Shrinks, Logged, Elsewhere, LooseStep, FreeAddr, HeldOk;
    FreeRootInv(fs, i);
    FreeAddrShrinks(fs, i, NDIRECT);
    ShrinksLogged(fs, m, i, Root(fs, i));
    ShrinksElsewhere(fs, m, i, Root(fs, i));
    CutElsewhere(fs, m, i, fs.cut - {i});
    LoggedSame(fs, m, r);
    SameLooses(fs, m, r);
    HeldStays(l, r, l.op.(dirty := true));
  }

  lemma SameLooses(fs: Fs, m: Fs, r: Fs)
    requires LooseStep(fs, m, 0, 0) && r.blocks == m.blocks && r.owner == m.owner
    ensures LooseStep(fs, r, 0, 0)
  {
  }

  lemma UpdateElsewhere(fs: Fs, i: nat, n: Word)
    requires Inv(fs) && CanUpdate(fs, i)
    ensures Elsewhere(fs, SetSize(fs, i, n), i) && LooseStep(fs, SetSize(fs, i, n), 0, 0)
  {
    hide Inv, Dinode, Resolve, SetSize;
    var r := SetSize(fs, i, n);
    SetSizeInv(fs, i, n);
    SetSizeFacts(fs, i, n);
    MetaFirst(fs);
    forall x: nat {:trigger Dinode(r, x)} | x < fs.lay.ninodes && x != i ensures Dinode(r, x) == Dinode(fs, x) {
      SetSizeDinode(fs, i, n, x);
    }
    forall x: nat, y: nat {:trigger SameData(fs, r, x, y)} | y < MAXFILE && x != i && Addr(fs, x, y) != 0
      ensures SameData(fs, r, x, y)
    {
      AddrOwned(fs, x, y);
      SetSizeBlocks(fs, i, n, Addr(fs, x, y));
      SameDataHere(fs, r, x, y);
    }
    forall c | c in fs.owner && fs.owner[c].Loose? ensures c < |fs.blocks| && c != 0 && r.blocks[c] == fs.blocks[c] {
      LooseIsData(fs, c);
      SetSizeBlocks(fs, i, n, c);
    }
  }

  lemma MetaFirst(fs: Fs)
    requires Inv(fs)
    ensures Shape(fs) && fs.lay.bmapstart <= fs.lay.nmeta
  {
    MapBelowMeta(fs.lay);
  }

  lemma SetSizeFacts(fs: Fs, i: nat, n: Word)
    requires CanUpdate(fs, i)
    ensures var r := SetSize(fs, i, n);
            && r.lay == fs.lay && |r.blocks| == |fs.blocks| && r.cut == fs.cut && r.owner == fs.owner
            && r.inodes == fs.inodes[i := fs.inodes[i].(size := n)]
  {
  }

  lemma DoUpdate(l: Local, i: nat, n: Word)
    requires Inv(l.fs) && HeldOk(l) && CanDo(l, i, Update(n))
    ensures Goes(l, Do(l, i, Update(n)), i)
  {
    hide Inv, Logged, Elsewhere, LooseStep, HeldOk, PutDinode, SetSize;
    SetSizeInv(l.fs, i, n);
    UpdateElsewhere(l.fs, i, n);
    LoggedNone(l.fs);
    SetSizeLogged(l.fs, l.fs, i, n);
    HeldStays(l, SetSize(l.fs, i, n), l.op.(dirty := false));
  }

  lemma DoGoes(l: Local, i: nat, a: Act)
    requires Inv(l.fs) && HeldOk(l) && CanDo(l, i, a)
    ensures Goes(l, Do(l, i, a), i)
  {
    hide Inv, HeldOk, CanDo, Do, Goes;
    match a
    case MarkBlock(b) => DoMark(l, i, b);
    case ZeroIt => DoZero(l, i);
    case StoreAddr(k) => DoStoreAddr(l, i, k);
    case StoreEntry(j) => DoStoreEntry(l, i, j);
    case PutData(bn, d) => DoPutData(l, i, bn, d);
    case DropAddr(k) => DoDropAddr(l, i, k);
    case StartCut => DoStartCut(l, i);
    case DropEntry => DoDropEntry(l, i);
    case DropRoot => DoDropRoot(l, i);
    case Update(n) => DoUpdate(l, i, n);
  }

  // ----- when an inode is in order

  /** Inode i is on the disk as in memory, and no block below its size is missing. */
  ghost predicate CleanAt(fs: Fs, i: nat)
  {
    SyncedAt(fs, i) && (i in fs.inodes ==> Backed(fs, i, fs.inodes[i].size))
  }

  /** What an operation has to put in order, it knows of. */
  ghost predicate OpClean(l: Local, i: nat)
  {
    i in l.fs.inodes && InUse(l.fs.inodes[i]) && (!l.op.dirty && i !in l.fs.cut ==> CleanAt(l.fs, i))
  }

  ghost predicate AddrsStay(fs: Fs, r: Fs, i: nat)
  {
    forall y: nat {:trigger Addr(r, i, y)} :: y < MAXFILE && Addr(fs, i, y) != 0 ==> Addr(r, i, y) == Addr(fs, i, y)
  }

  lemma StillBacked(fs: Fs, r: Fs, i: nat, n: nat)
    requires Backed(fs, i, n) && AddrsStay(fs, r, i) && |r.blocks| == |fs.blocks|
    ensures Backed(r, i, n)
  {
    hide Addr;
  }

  lemma StillClean(fs: Fs, r: Fs, i: nat)
    requires CleanAt(fs, i) && AddrsStay(fs, r, i) && |r.blocks| == |fs.blocks| && r.lay == fs.lay
    requires (i in r.inodes <==> i in fs.inodes) && (i in r.inodes ==> r.inodes[i] == fs.inodes[i])
    requires Dinode(r, i) == Dinode(fs, i)
    ensures CleanAt(r, i)
  {
    hide Addr, Dinode, Backed, AddrsStay;
    if i in fs.inodes {
      StillBacked(fs, r, i, fs.inodes[i].size);
    }
  }

  /** The other inodes stay in order. */
  lemma ElsewhereClean(fs: Fs, r: Fs, i: nat, x: nat)
    requires Elsewhere(fs, r, i) && x != i && x < fs.lay.ninodes && CleanAt(fs, x)
    ensures CleanAt(r, x)
  {
    hide Dinode, CleanAt, Resolve;
    forall y: nat {:trigger Addr(r, x, y)} | y < MAXFILE && Addr(fs, x, y) != 0
      ensures Addr(r, x, y) == Addr(fs, x, y)
    {
      assert SameData(fs, r, x, y);
    }
    assert Dinode(r, x) == Dinode(fs, x);
    StillClean(fs, r, x);
  }

  /** And their contents stay. */
  lemma ElsewhereContent(fs: Fs, r: Fs, i: nat, x: nat)
    requires Elsewhere(fs, r, i) && x != i && x in fs.inodes && Backed(fs, x, fs.inodes[x].size)
    ensures x in r.inodes && r.inodes[x] == fs.inodes[x] && fs.inodes[x].size <= MAXBYTES
    ensures Content(r, x) == Content(fs, x)
  {
    hide Dinode, Resolve;
    forall k | 0 <= k < fs.inodes[x].size ensures FileByte(r, x, k) == FileByte(fs, x, k) {
      BlockOf(k, fs.inodes[x].size);
      assert Addr(fs, x, k / BSIZE) != 0;
      assert SameData(fs, r, x, k / BSIZE);
    }
  }

  lemma KeptStay(fs: Fs, r: Fs, i: nat, bn: nat)
    requires Kept(fs, r, i, bn) && (bn < MAXFILE ==> Addr(fs, i, bn) == 0 || Addr(r, i, bn) == Addr(fs, i, bn))
    ensures AddrsStay(fs, r, i)
  {
    hide SameDinodes, Resolve;
    forall y: nat {:trigger Addr(r, i, y)} | y < MAXFILE && Addr(fs, i, y) != 0
      ensures Addr(r, i, y) == Addr(fs, i, y)
    {
      if y != bn {
        assert SameData(fs, r, i, y);
      }
    }
  }

  lemma KeptClean(l: Local, r: Local, i: nat, bn: nat)
    requires Kept(l.fs, r.fs, i, bn) && AddrsStay(l.fs, r.fs, i) && |r.fs.blocks| == |l.fs.blocks| && Shape(l.fs)
    requires OpClean(l, i) && r.fs.inodes == l.fs.inodes && r.op.dirty == l.op.dirty && r.fs.cut == l.fs.cut
    ensures OpClean(r, i)
  {
    hide Dinode, CleanAt, Resolve, AddrsStay;
    if !l.op.dirty && i !in l.fs.cut {
      assert Dinode(r.fs, i) == Dinode(l.fs, i);
      StillClean(l.fs, r.fs, i);
    }
  }

  lemma MarkClean(l: Local, i: nat, b: nat)
    requires Inv(l.fs) && HeldOk(l) && CanDo(l, i, MarkBlock(b)) && OpClean(l, i)
    ensures OpClean(Do(l, i, MarkBlock(b)), i)
  {
    var r := Do(l, i, MarkBlock(b));
    MarkFacts(l.fs, b);
    assert b !in l.fs.owner && r.fs.inodes == l.fs.inodes;
    hide Inv, Kept, AddrsStay, SameSlots, OpClean, Mark;
    MarkTakes(l.fs, b, i, r.fs);
    KeptStay(l.fs, r.fs, i, NONE);
    KeptClean(l, r, i, NONE);
  }

  lemma WriteClean(l: Local, r: Local, i: nat, x: nat, d: Block, bn: nat)
    requires Inv(l.fs) && OpClean(l, i) && x in l.fs.owner
    requires l.fs.owner[x].Loose? || (bn < MAXFILE && l.fs.owner[x] == DataSlot(i, bn))
    requires x < |l.fs.blocks| && r.fs == PutBlock(l.fs, x, d) && r.op.dirty == l.op.dirty
    ensures OpClean(r, i)
  {
    assert Shape(l.fs);
    hide Inv, Kept, AddrsStay, OpClean;
    WriteKeeps(l.fs, x, d, i, bn);
    if bn < MAXFILE {
      assert Resolve(r.fs, DataSlot(i, bn)) == Resolve(l.fs, DataSlot(i, bn));
    }
    KeptStay(l.fs, r.fs, i, bn);
    KeptClean(l, r, i, bn);
  }

  lemma StoreEntryClean(l: Local, i: nat, j: nat)
    requires Inv(l.fs) && HeldOk(l) && CanDo(l, i, StoreEntry(j)) && OpClean(l, i)
    ensures OpClean(Do(l, i, StoreEntry(j)), i)
  {
    var r := Do(l, i, StoreEntry(j));
    assert r.fs.inodes == l.fs.inodes && r.fs.cut == l.fs.cut && |r.fs.blocks| == |l.fs.blocks|;
    hide Inv, Kept, AddrsStay, OpClean, AttachEntry, Resolve;
    assert DataSlot(i, NDIRECT + j) == Entry(i, j);
    AttachEntryKept(l.fs, i, j, l.op.held.b);
    KeptStay(l.fs, r.fs, i, NDIRECT + j);
    KeptClean(l, r, i, NDIRECT + j);
  }

  lemma UpdateClean(l: Local, i: nat, n: Word)
    requires Inv(l.fs) && HeldOk(l) && CanDo(l, i, Update(n)) && OpClean(l, i)
    ensures OpClean(Do(l, i, Update(n)), i)
  {
    var fs, r := l.fs, SetSize(l.fs, i, n);
    SetSizeDinode(fs, i, n, i);
    assert r.inodes[i] == fs.inodes[i].(size := n) && |r.blocks| == |fs.blocks|;
    hide Inv, PutDinode, Dinode, SetSize;
    SetSizeInv(fs, i, n);
    forall y: nat {:trigger Addr(r, i, y)} | y < MAXFILE ensures Addr(r, i, y) == Addr(fs, i, y) {
      assert Resolve(r, DataSlot(i, y)) == Resolve(fs, DataSlot(i, y));
    }
    hide Resolve, Backed;
    StillBacked(fs, r, i, n);
  }

  /** Cutting and storing addresses leave it to a later iupdate. */
  lemma LaterClean(l: Local, r: Local, i: nat)
    requires OpClean(l, i) && Elsewhere(l.fs, r.fs, i) && (r.op.dirty || i in r.fs.cut)
    ensures OpClean(r, i)
  {
  }

  lemma DoClean(l: Local, i: nat, a: Act)
    requires Inv(l.fs) && HeldOk(l) && CanDo(l, i, a) && OpClean(l, i)
    ensures OpClean(Do(l, i, a), i)
  {
    hide Inv, HeldOk, OpClean, Elsewhere, LooseStep, Logged, Used, Resolve;
    DoGoes(l, i, a);
    match a
    case MarkBlock(b) => MarkClean(l, i, b);
    case ZeroIt => ZeroClean(l, i);
    case StoreEntry(j) => StoreEntryClean(l, i, j);
    case PutData(bn, d) => PutDataClean(l, i, bn, d);
    case Update(n) => UpdateClean(l, i, n);
    case _ => LaterClean(l, Do(l, i, a), i);
  }

  lemma ZeroClean(l: Local, i: nat)
    requires Inv(l.fs) && HeldOk(l) && CanDo(l, i, ZeroIt) && OpClean(l, i)
    ensures OpClean(Do(l, i, ZeroIt), i)
  {
    hide Inv, OpClean;
    WriteClean(l, Do(l, i, ZeroIt), i, l.op.held.b, ZeroBlock(), NONE);
  }

  lemma PutDataClean(l: Local, i: nat, bn: nat, d: Block)
    requires Inv(l.fs) && HeldOk(l) && CanDo(l, i, PutData(bn, d)) && OpClean(l, i)
    ensures OpClean(Do(l, i, PutData(bn, d)), i)
  {
    hide Inv, OpClean;
    AddrOwned(l.fs, i, bn);
    WriteClean(l, Do(l, i, PutData(bn, d)), i, Addr(l.fs, i, bn), d, bn);
  }

  // ----- several steps of one operation

  ghost predicate CanAll(l: Local, i: nat, acts: seq<Act>)
    decreases |acts|
  {
    acts == [] || (CanDo(l, i, acts[0]) && CanAll(Do(l, i, acts[0]), i, acts[1..]))
  }

  ghost function DoAll(l: Local, i: nat, acts: seq<Act>): (r: Local)
    requires CanAll(l, i, acts)
    decreases |acts|
  {
    if acts == [] then l else DoAll(Do(l, i, acts[0]), i, acts[1..])
  }

  lemma {:induction false} DoBoth(l: Local, i: nat, a: seq<Act>, b: seq<Act>)
    requires CanAll(l, i, a) && CanAll(DoAll(l, i, a), i, b)
    ensures CanAll(l, i, a + b) && DoAll(l, i, a + b) == DoAll(DoAll(l, i, a), i, b)
    decreases |a|
  {
    hide CanDo, Do;
    if a == [] {
      assert a + b == b;
    } else {
      DoBoth(Do(l, i, a[0]), i, a[1..], b);
      assert (a + b)[0] == a[0] && (a + b)[1..] == a[1..] + b;
    }
  }

  /** Between two times at which it holds no block and has yet to write the inode, an operation on inode i can take
      the state from fs to r. */
  ghost predicate Leads(fs: Fs, r: Fs, i: nat, acts: seq<Act>)
  {
    var l := Local(fs, Op(Nothing, true));
    CanAll(l, i, acts) && DoAll(l, i, acts) == Local(r, Op(Nothing, true))
  }

  ghost predicate Path(fs: Fs, r: Fs, i: nat)
  {
    exists acts: seq<Act> :: Leads(fs, r, i, acts)
  }

  lemma PathSelf(fs: Fs, i: nat)
    ensures Path(fs, fs, i)
  {
    assert Leads(fs, fs, i, []);
  }

  lemma PathTrans(a: Fs, b: Fs, c: Fs, i: nat)
    requires Path(a, b, i) && Path(b, c, i)
    ensures Path(a, c, i)
  {
    var p: seq<Act> :| Leads(a, b, i, p);
    var q: seq<Act> :| Leads(b, c, i, q);
    hide CanAll, DoAll;
    DoBoth(Local(a, Op(Nothing, true)), i, p, q);
    assert Leads(a, c, i, p + q);
  }

  lemma PathOne(fs: Fs, r: Fs, i: nat, a: Act)
    requires var l := Local(fs, Op(Nothing, true)); CanDo(l, i, a) && Do(l, i, a) == Local(r, Op(Nothing, true))
    ensures Path(fs, r, i)
  {
    hide CanDo, Do;
    One(Local(fs, Op(Nothing, true)), i, a);
    assert Leads(fs, r, i, [a]);
  }

  /** Three steps: mark, zero and store. */
  lemma PathStore(fs: Fs, r: Fs, i: nat, b: nat, a: Act)
    requires var l := Local(fs, Op(Nothing, true));
             && CanDo(l, i, MarkBlock(b)) && CanDo(Do(l, i, MarkBlock(b)), i, ZeroIt)
             && var z := Do(Do(l, i, MarkBlock(b)), i, ZeroIt);
             CanDo(z, i, a) && Do(z, i, a) == Local(r, Op(Nothing, true))
    ensures Path(fs, r, i)
  {
    var l := Local(fs, Op(Nothing, true));
    hide CanDo, Do;
    var m := Do(l, i, MarkBlock(b));
    var z := Do(m, i, ZeroIt);
    assert CanAll(z, i, [a]) && DoAll(z, i, [a]) == Do(z, i, a) by { One(z, i, a); }
    assert [ZeroIt, a][1..] == [a];
    assert CanAll(m, i, [ZeroIt, a]) && DoAll(m, i, [ZeroIt, a]) == Do(z, i, a);
    assert [MarkBlock(b), ZeroIt, a][1..] == [ZeroIt, a];
    assert Leads(fs, r, i, [MarkBlock(b), ZeroIt, a]);
  }

  lemma One(l: Local, i: nat, a: Act)
    requires CanDo(l, i, a)
    ensures CanAll(l, i, [a]) && DoAll(l, i, [a]) == Do(l, i, a)
  {
    hide CanDo, Do;
    assert [a][1..] == [];
  }

  /** An operation on inode i, from the first change to the last iupdate. */
  ghost predicate Performed(fs: Fs, r: Fs, i: nat)
  {
    exists m: Fs, n: Word :: EndsWith(fs, m, n, r, i)
  }

  ghost predicate EndsWith(fs: Fs, m: Fs, n: Word, r: Fs, i: nat)
  {
    Path(fs, m, i) && CanDo(Local(m, Op(Nothing, true)), i, Update(n)) && r == SetSize(m, i, n)
  }

  lemma PathDirect(fs: Fs, i: nat, k: nat, b: Word)
    requires Inv(fs) && i in fs.inodes && k <= NDIRECT && fs.inodes[i].addrs[k] == 0
    requires b < fs.lay.size && b !in fs.owner && MapBlock(fs.lay, b) < |fs.blocks|
    ensures b < |fs.blocks|
    ensures var t := Take(fs, b); Path(fs, AttachDirect(t, i, k, b), i)
  {
    TakeInv(fs, b, i);
    TakeFacts(fs, b);
    assert Shape(fs) && !Used(fs, b);
    MarkFacts(fs, b);
    assert Shape(MarkLoose(fs, b)) by { MarkOk(fs, i, b); }
    hide Inv, Mark, Used, Kept, SameSlots;
    var t := Take(fs, b);
    assert MarkLoose(fs, b).inodes == fs.inodes;
    PathStore(fs, AttachDirect(t, i, k, b), i, b, StoreAddr(k));
  }

  lemma PathEntry(fs: Fs, i: nat, j: nat, b: Word)
    requires Inv(fs) && i in fs.inodes && j < NINDIRECT && 0 < Root(fs, i) < |fs.blocks| && i !in fs.cut
    requires Resolve(fs, Entry(i, j)) == 0
    requires b < fs.lay.size && b !in fs.owner && MapBlock(fs.lay, b) < |fs.blocks|
    ensures b < |fs.blocks|
    ensures var t := Take(fs, b); Root(t, i) < |t.blocks| && Path(fs, AttachEntry(t, i, j, b), i)
  {
    hide Inv, Mark, Used, Kept, SameSlots, Resolve, Elsewhere;
    InvShape(fs);
    NotOwned(fs, b);
    TakeInv(fs, b, i);
    TakeFacts(fs, b);
    MarkFacts(fs, b);
    MarkOk(fs, i, b);
    InvShape(MarkLoose(fs, b));
    var t := Take(fs, b);
    SlotStays(fs, t, Entry(i, j));
    PathStore(fs, AttachEntry(t, i, j, b), i, b, StoreEntry(j));
  }

  lemma SlotStays(fs: Fs, t: Fs, s: Slot)
    requires SameSlots(fs, t) && GoodSlot(s)
    ensures Resolve(t, s) == Resolve(fs, s)
  {
  }

  lemma NotOwned(fs: Fs, b: nat)
    requires Inv(fs) && b < fs.lay.size && b !in fs.owner
    ensures !Used(fs, b)
  {
  }

  lemma PathPut(fs: Fs, i: nat, bn: nat, d: Block)
    requires Shape(fs) && i in fs.inodes && bn < MAXFILE && 0 < Addr(fs, i, bn) < |fs.blocks|
    ensures Path(fs, PutBlock(fs, Addr(fs, i, bn), d), i)
  {
    hide Path, Shape, Addr;
    PathOne(fs, PutBlock(fs, Addr(fs, i, bn), d), i, PutData(bn, d));
  }

  lemma PathDropAddr(fs: Fs, i: nat, k: nat)
    requires Shape(fs) && i in fs.inodes && k < NDIRECT && fs.inodes[i].addrs[k] != 0
    requires MapBlock(fs.lay, fs.inodes[i].addrs[k]) < |fs.blocks|
    ensures Path(fs, FreeAddr(fs, i, k), i)
  {
    assert k < |fs.inodes[i].addrs|;
    hide Path, FreeAddr, Shape;
    PathOne(fs, FreeAddr(fs, i, k), i, DropAddr(k));
  }

  lemma PathStartCut(fs: Fs, i: nat)
    requires Shape(fs) && i in fs.inodes && Root(fs, i) != 0 && i !in fs.cut
    ensures Path(fs, fs.(cut := fs.cut[i := 0]), i)
  {
    hide Path, Shape;
    PathOne(fs, fs.(cut := fs.cut[i := 0]), i, StartCut);
  }

  lemma PathDropEntry(fs: Fs, i: nat, j: nat)
    requires Shape(fs) && i in fs.inodes && CutAt(fs, i, j) && j < NINDIRECT && 0 < Root(fs, i) < |fs.blocks|
    requires MapBlock(fs.lay, WordAt(fs.blocks[Root(fs, i)], j)) < |fs.blocks|
    ensures Path(fs, CutEntry(fs, i, j), i)
  {
    hide Path, CutEntry, Shape, WordAt;
    PathOne(fs, CutEntry(fs, i, j), i, DropEntry);
  }

  lemma PathDropRoot(fs: Fs, i: nat)
    requires Shape(fs) && i in fs.inodes && CutAt(fs, i, NINDIRECT) && Root(fs, i) != 0
    requires MapBlock(fs.lay, Root(fs, i)) < |fs.blocks|
    ensures |fs.inodes[i].addrs| == NDIRECT + 1 && fs.inodes[i].addrs[NDIRECT] == Root(fs, i)
    ensures Path(fs, RootFreed(fs, i), i)
  {
    hide Path, RootFreed, Shape;
    assert |fs.inodes[i].addrs| == NDIRECT + 1;
    PathOne(fs, RootFreed(fs, i), i, DropRoot);
  }

  /** What an operation can do, and does to the file system, does not depend on whether the inode is yet to be
      written. */
  lemma {:induction false} DirtyOrNot(l: Local, k: Local, i: nat, acts: seq<Act>)
    requires CanAll(l, i, acts) && k.fs == l.fs && k.op.held == l.op.held
    ensures CanAll(k, i, acts) && DoAll(k, i, acts).fs == DoAll(l, i, acts).fs
    ensures DoAll(k, i, acts).op.held == DoAll(l, i, acts).op.held
    decreases |acts|
  {
    if acts != [] {
      DirtyOrNotOne(l, k, i, acts[0]);
      hide CanDo, Do;
      DirtyOrNot(Do(l, i, acts[0]), Do(k, i, acts[0]), i, acts[1..]);
    }
  }

  lemma DirtyOrNotOne(l: Local, k: Local, i: nat, a: Act)
    requires CanDo(l, i, a) && k.fs == l.fs && k.op.held == l.op.held
    ensures CanDo(k, i, a) && Do(k, i, a).fs == Do(l, i, a).fs && Do(k, i, a).op.held == Do(l, i, a).op.held
  {
  }
}
