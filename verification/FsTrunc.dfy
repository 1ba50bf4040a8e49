/** itrunc of kernel/fs.c: truncation gives back exactly the inode's blocks. */
module FsTrunc {
  import opened Blocks
  import opened Dinodes
  import opened Bits
  import opened FsState
  import opened FsContent
  import opened FsLog
  import opened FsFree
  import opened FsSteps
  import opened FileSystem
  import opened LogDisk

  // ----- what truncation leaves alone

  /** Since fs0 only blocks of inode i were given back, and every other file is untouched. */
  ghost predicate Shrinking(fs0: Fs, fs: Fs, i: nat)
  {
    OthersKept(fs0, fs, i) && OwnersShrink(fs0, fs, i) && MapsLogged(fs0, fs)
  }

  ghost predicate OwnersShrink(fs0: Fs, fs: Fs, i: nat)
  {
    && (forall b :: b in fs.owner ==> b in fs0.owner && fs.owner[b] == fs0.owner[b])
    && (forall b :: b in fs0.owner && b !in fs.owner ==> OwnedBy(fs0.owner[b], i))
  }

  /** What a truncation logs: blocks of the free map, and last the inode's. */
  ghost predicate TruncLogged(fs0: Fs, fs: Fs)
  {
    var added := if |fs0.log| <= |fs.log| then fs.log[|fs0.log|..] else [];
    && added != [] && Logged(fs0, fs)
    && |Elems(added[..|added| - 1])| <= MapBlocks(fs0.lay) && |Elems(added)| <= MapBlocks(fs0.lay) + 1
  }

  lemma FewLogged(fs0: Fs, fs: Fs, i: nat)
    requires MapsLogged(fs0, fs) && CanUpdate(fs, i)
    ensures TruncLogged(fs0, SetSize(fs, i, 0))
  {
    var r, n := SetSize(fs, i, 0), |fs0.log|;
    var ib := InodeBlock(fs.lay, i);
    SetSizeLogged(fs0, fs, i, 0);
    hide Logged, PutDinode;
    assert r.log[n..] == fs.log[n..] + [ib];
    var maps := Elems(fs.log[n..]);
    CardAtMost(fs0.lay.bmapstart, MapBlocks(fs0.lay), maps);
    CardUnion(maps, {ib});
    CardSubset(Elems(r.log[n..]), maps + {ib});
  }

  /** A truncation, started with an empty transaction, fits the log on a file system whose free map has fewer than
      MAXOPBLOCKS blocks. */
  lemma TruncFits(fs0: Fs, fs: Fs, i: nat)
    requires fs0.log == [] && Truncated(fs0, fs, i) && MapBlocks(fs0.lay) < MAXOPBLOCKS
    ensures FitsTransaction(fs.log) && |Elems(fs.log)| <= MAXOPBLOCKS
  {
    hide Good, SameFile, OnlyInode, Logged, Elems, MapBlocks, FitsTransaction;
    assert fs.log[0..] == fs.log;
    WriteFits(fs.log);
  }

  lemma ShrinkData(fs0: Fs, fs: Fs, r: Fs, i: nat, b: nat, x: nat, y: nat)
    requires Shrinks(fs, r, i, b) && y < MAXFILE && x != i && Addr(fs0, x, y) != 0 && SameData(fs0, fs, x, y)
    ensures SameData(fs0, r, x, y)
  {
    hide MapsLogged, SameDinodes;
    AddrOwned(fs, x, y);
    assert Resolve(r, DataSlot(x, y)) == Resolve(fs, DataSlot(x, y));
  }

  lemma ShrinkOthers(fs0: Fs, fs: Fs, r: Fs, i: nat, b: nat)
    requires OthersKept(fs0, fs, i) && Shrinks(fs, r, i, b)
    ensures OthersKept(fs0, r, i)
  {
    hide MapsLogged, Inv, Resolve, SameDinodes;
    SameDinodesTrans(fs0, fs, r);
    forall x: nat, y: nat {:trigger SameData(fs0, r, x, y)} | y < MAXFILE && x != i && Addr(fs0, x, y) != 0
      ensures SameData(fs0, r, x, y)
    {
      assert SameData(fs0, fs, x, y);
      ShrinkData(fs0, fs, r, i, b, x, y);
    }
  }

  lemma ShrinkOwners(fs0: Fs, fs: Fs, r: Fs, i: nat, b: nat)
    requires OwnersShrink(fs0, fs, i) && r.owner == fs.owner - {b} && b in fs.owner && OwnedBy(fs.owner[b], i)
    ensures OwnersShrink(fs0, r, i)
  {
  }

  lemma ShrinkStep(fs0: Fs, fs: Fs, r: Fs, i: nat, b: nat)
    requires Shrinking(fs0, fs, i) && Shrinks(fs, r, i, b)
    ensures Shrinking(fs0, r, i)
  {
    hide OthersKept, OwnersShrink, MapsLogged, Inv, Resolve, SameDinodes;
    MapsTrans(fs0, fs, r);
    ShrinkOthers(fs0, fs, r, i, b);
    ShrinkOwners(fs0, fs, r, i, b);
  }

  /** The same, seen as steps of an operation. */
  ghost predicate Dropping(fs0: Fs, fs: Fs, i: nat)
  {
    Shrinking(fs0, fs, i) && Path(fs0, fs, i)
  }

  // ----- the code

  /** bfree's work on the map block that holds bit bi; true is its panic. */
  method ClearBit(bp: Block, bi: nat) returns (panic: bool, r: Block)
    requires bi < BPB
    ensures panic <==> !BitAt(bp, bi)
    ensures !panic ==> r == SetBitAt(bp, bi, false)
  {
    panic, r := !BitAt(bp, bi), bp;
    if !panic {
      r := SetBitAt(bp, bi, false);
    }
  }

  /** bfree of a block whose map bit is set, so that it does not panic; only the free map changes. */
  method Bfree(dev: Device, b: nat)
    requires b < dev.lay.size && MapBlock(dev.lay, b) < |dev.blocks| && BitAt(dev.blocks[MapBlock(dev.lay, b)], b % BPB)
    modifies dev`blocks
    ensures dev.blocks ==
              old(dev.blocks)[MapBlock(dev.lay, b) := SetBitAt(old(dev.blocks)[MapBlock(dev.lay, b)], b % BPB, false)]
  {
    var mb := MapBlock(dev.lay, b);
    var panic, m := ClearBit(dev.blocks[mb], b % BPB);
    assert !panic;
    dev.blocks := dev.blocks[mb := m];
  }

  /** bfree(b) on fs gives the map of r. */
  ghost predicate FreesInMap(fs: Fs, r: Fs, b: nat)
  {
    && b < fs.lay.size && MapBlock(fs.lay, b) < |fs.blocks| && BitAt(fs.blocks[MapBlock(fs.lay, b)], b % BPB)
    && r.blocks == fs.blocks[MapBlock(fs.lay, b) := SetBitAt(fs.blocks[MapBlock(fs.lay, b)], b % BPB, false)]
    && r.lay == fs.lay
  }

  lemma DropDirectOk(fs0: Fs, fs: Fs, i: nat, k: nat)
    requires Inv(fs) && i in fs.inodes && k < NDIRECT && fs.inodes[i].addrs[k] != 0 && Dropping(fs0, fs, i)
    ensures MapBlock(fs.lay, fs.inodes[i].addrs[k]) < |fs.blocks|
    ensures var r := FreeAddr(fs, i, k);
            && Inv(r) && Dropping(fs0, r, i) && FreesInMap(fs, r, fs.inodes[i].addrs[k]) && r.cut == fs.cut
            && r.inodes == ZeroedAddr(fs.inodes, i, k)
  {
    assert Shape(fs) && |fs.inodes[i].addrs| == NDIRECT + 1;
    SlotUsed(fs, Direct(i, k));
    hide Inv, Shrinking, Shrinks, Path, Shape, SetBitAt;
    FreeAddrInv(fs, i, k);
    FreeAddrShrinks(fs, i, k);
    ShrinkStep(fs0, fs, FreeAddr(fs, i, k), i, fs.inodes[i].addrs[k]);
    PathDropAddr(fs, i, k);
    PathTrans(fs0, fs, FreeAddr(fs, i, k), i);
  }

  lemma EntryShrinks(fs0: Fs, fs: Fs, i: nat, j: nat, b: nat)
    requires Inv(fs) && j < NINDIRECT && 0 < Root(fs, i) < |fs.blocks| && CutAt(fs, i, j) && Shrinking(fs0, fs, i)
    requires b == WordAt(fs.blocks[Root(fs, i)], j) && MapBlock(fs.lay, b) < |fs.blocks|
    ensures Shrinking(fs0, CutEntry(fs, i, j), i)
  {
    if b != 0 {
      hide Inv, Shrinking, Shrinks, CutEntry, WordAt;
      CutEntryShrinks(fs, i, j, b);
      ShrinkStep(fs0, fs, CutEntry(fs, i, j), i, b);
    } else {
      hide Inv, Shrinking, WordAt, Release;
      ShrinkCut(fs0, fs, i, fs.cut[i := j + 1]);
    }
  }

  lemma EntryInMap(fs: Fs, i: nat, j: nat, b: nat)
    requires Inv(fs) && j < NINDIRECT && 0 < Root(fs, i) < |fs.blocks| && CutAt(fs, i, j)
    requires b == WordAt(fs.blocks[Root(fs, i)], j)
    ensures MapBlock(fs.lay, b) < |fs.blocks|
    ensures var r := CutEntry(fs, i, j);
            && r.inodes == fs.inodes && r.lay == fs.lay && r.cut == fs.cut[i := j + 1]
            && if b == 0 then r.blocks == fs.blocks else FreesInMap(fs, r, b)
  {
    if b != 0 {
      SlotUsed(fs, Entry(i, j));
    }
    assert b < fs.lay.size && MapBlock(fs.lay, b) < fs.lay.nmeta;
    hide Inv, SetBitAt, WordAt;
  }

  lemma DropEntryOk(fs0: Fs, fs: Fs, i: nat, j: nat, b: nat)
    requires Inv(fs) && i in fs.inodes && j < NINDIRECT && Root(fs, i) != 0 && CutAt(fs, i, j) && Dropping(fs0, fs, i)
    requires Root(fs, i) < |fs.blocks| && b == WordAt(fs.blocks[Root(fs, i)], j)
    ensures MapBlock(fs.lay, b) < |fs.blocks|
    ensures var r := CutEntry(fs, i, j);
            && Inv(r) && Dropping(fs0, r, i) && r.inodes == fs.inodes && r.lay == fs.lay
            && r.cut == fs.cut[i := j + 1]
            && if b == 0 then r.blocks == fs.blocks else FreesInMap(fs, r, b)
  {
    assert Shape(fs);
    hide Inv, Shrinking, Path, Shape, WordAt, CutEntry, FreesInMap;
    EntryInMap(fs, i, j, b);
    CutEntryInv(fs, i, j);
    PathDropEntry(fs, i, j);
    PathTrans(fs0, fs, CutEntry(fs, i, j), i);
    EntryShrinks(fs0, fs, i, j, b);
  }

  /** `bfree(ip->addrs[k]); ip->addrs[k] = 0`, after which the state is r. */
  method FreeSlot(dev: Device, i: nat, k: nat, ghost r: Fs)
    requires dev.fs.lay == dev.lay && dev.fs.blocks == dev.blocks && i in dev.inodes && k < |dev.inodes[i].addrs|
    requires FreesInMap(dev.fs, r, dev.inodes[i].addrs[k]) && r.inodes == ZeroedAddr(dev.inodes, i, k) && Inv(r)
    modifies dev
    ensures dev.Valid() && dev.fs == r
  {
    hide Inv, SetBitAt, BitAt;
    Bfree(dev, dev.inodes[i].addrs[k]);
    dev.inodes := dev.inodes[i := dev.inodes[i].(addrs := dev.inodes[i].addrs[k := 0])];
    dev.fs := r;
  }

  /** `if(ip->addrs[k]){ bfree(ip->addrs[k]); ip->addrs[k] = 0; }` for a direct block. */
  method DropDirect(dev: Device, i: nat, k: nat, ghost fs0: Fs)
    requires dev.Valid() && i in dev.fs.inodes && k < NDIRECT && Dropping(fs0, dev.fs, i)
    modifies dev
    ensures dev.Valid() && Dropping(fs0, dev.fs, i) && i in dev.fs.inodes && dev.fs.cut == old(dev.fs).cut
    ensures dev.fs.inodes[i].addrs == old(dev.fs).inodes[i].addrs[k := 0]
  {
    assert |dev.fs.inodes[i].addrs| == NDIRECT + 1;
    hide Inv, Dropping, FreesInMap, MapBlock, FreeAddr;
    ghost var fs := dev.fs;
    if dev.inodes[i].addrs[k] != 0 {
      DropDirectOk(fs0, fs, i, k);
      FreeSlot(dev, i, k, FreeAddr(fs, i, k));
    } else {
      assert fs.inodes[i].addrs[k := 0] == fs.inodes[i].addrs;
    }
  }

  /** Inode i is the only one being truncated, and has come to entry j. */
  ghost predicate OnlyCut(fs: Fs, i: nat, j: nat) { fs.cut == map[i := j] }

  lemma CutNext(i: nat, j: nat)
    ensures map[i := j][i := j + 1] == map[i := j + 1]
  {
  }

  /** `if(a[j]) bfree(a[j]);`, after which the state is r. */
  method FreeEntry(dev: Device, b: nat, ghost r: Fs)
    requires dev.fs.lay == dev.lay && dev.fs.blocks == dev.blocks
    requires Inv(r) && r.lay == dev.lay && r.inodes == dev.inodes
    requires if b == 0 then r.blocks == dev.blocks else FreesInMap(dev.fs, r, b)
    modifies dev`blocks, dev`fs
    ensures dev.Valid() && dev.fs == r
  {
    hide Inv, SetBitAt, BitAt;
    if b != 0 {
      Bfree(dev, b);
    }
    dev.fs := r;
  }

  /** Marking entries of inode i as freed concerns no other inode. */
  lemma ShrinkCut(fs0: Fs, fs: Fs, i: nat, c: map<nat, nat>)
    requires Shrinking(fs0, fs, i) && forall x :: x != i ==> (x in c <==> x in fs.cut)
    requires forall x :: x != i && x in c ==> c[x] == fs.cut[x]
    ensures Shrinking(fs0, fs.(cut := c), i)
  {
    var r := fs.(cut := c);
    SameDinodesOwner(fs0, fs, r);
    forall x: nat, y: nat {:trigger SameData(fs0, r, x, y)} | y < MAXFILE && x != i && Addr(fs0, x, y) != 0
      ensures SameData(fs0, r, x, y)
    {
      assert SameData(fs0, fs, x, y);
      assert Addr(r, x, y) == Addr(fs, x, y);
    }
  }

  lemma DropRootOk(fs0: Fs, fs: Fs, i: nat)
    requires Inv(fs) && i in fs.inodes && Root(fs, i) != 0 && CutAt(fs, i, NINDIRECT)
    requires Dropping(fs0, fs, i)
    ensures MapBlock(fs.lay, Root(fs, i)) < |fs.blocks|
    ensures |fs.inodes[i].addrs| == NDIRECT + 1 && fs.inodes[i].addrs[NDIRECT] == Root(fs, i)
    ensures var r := RootFreed(fs, i);
            && Inv(r) && Dropping(fs0, r, i) && FreesInMap(fs, r, Root(fs, i))
            && r.inodes == ZeroedAddr(fs.inodes, i, NDIRECT) && r.cut == fs.cut - {i}
  {
    assert Shape(fs) && |fs.inodes[i].addrs| == NDIRECT + 1;
    RootInMap(fs, i);
    hide Inv, Shrinking, Path, Shape, FreesInMap, FreeAddr;
    FreeRootInv(fs, i);
    PathDropRoot(fs, i);
    PathTrans(fs0, fs, RootFreed(fs, i), i);
    RootShrinks(fs0, fs, i);
  }

  lemma RootShrinks(fs0: Fs, fs: Fs, i: nat)
    requires Inv(fs) && i in fs.inodes && Root(fs, i) != 0 && MapBlock(fs.lay, Root(fs, i)) < |fs.blocks|
    requires Shrinking(fs0, fs, i)
    ensures Shrinking(fs0, RootFreed(fs, i), i)
  {
    var m := FreeAddr(fs, i, NDIRECT);
    assert m.cut == fs.cut;
    hide Inv, Shrinking, Shrinks, FreeAddr;
    FreeAddrShrinks(fs, i, NDIRECT);
    ShrinkStep(fs0, fs, m, i, Root(fs, i));
    ShrinkCut(fs0, m, i, fs.cut - {i});
  }

  lemma RootInMap(fs: Fs, i: nat)
    requires Inv(fs) && i in fs.inodes && Root(fs, i) != 0
    ensures MapBlock(fs.lay, Root(fs, i)) < |fs.blocks|
    ensures var r := RootFreed(fs, i);
            FreesInMap(fs, r, Root(fs, i)) && r.inodes == ZeroedAddr(fs.inodes, i, NDIRECT) && r.cut == fs.cut - {i}
  {
    SlotUsed(fs, Direct(i, NDIRECT));
    assert MapBlock(fs.lay, Root(fs, i)) < fs.lay.nmeta;
    hide Inv, SetBitAt;
  }

  /** `bfree(ip->addrs[NDIRECT]); ip->addrs[NDIRECT] = 0;` */
  method DropRoot(dev: Device, i: nat, ghost fs0: Fs)
    requires dev.Valid() && i in dev.fs.inodes && Root(dev.fs, i) != 0 && CutAt(dev.fs, i, NINDIRECT)
    requires Dropping(fs0, dev.fs, i)
    modifies dev
    ensures dev.Valid() && Dropping(fs0, dev.fs, i) && dev.fs.cut == old(dev.fs).cut - {i} && i in dev.fs.inodes
    ensures |old(dev.fs).inodes[i].addrs| == NDIRECT + 1
    ensures dev.fs.inodes[i].addrs == old(dev.fs).inodes[i].addrs[NDIRECT := 0]
  {
    ghost var fs := dev.fs;
    hide Inv, Dropping, FreesInMap, MapBlock, RootFreed;
    DropRootOk(fs0, fs, i);
    FreeSlot(dev, i, NDIRECT, RootFreed(fs, i));
  }

  lemma CutBegins(fs0: Fs, fs: Fs, i: nat)
    requires Inv(fs) && i in fs.inodes && Root(fs, i) != 0 && fs.cut == map[] && Dropping(fs0, fs, i)
    ensures Inv(fs.(cut := map[i := 0])) && Dropping(fs0, fs.(cut := map[i := 0]), i)
  {
    assert Shape(fs);
    hide Inv, Shrinking, Path, Shape;
    CutStart(fs, i);
    assert fs.cut[i := 0] == map[i := 0];
    ShrinkCut(fs0, fs, i, map[i := 0]);
    PathStartCut(fs, i);
    PathTrans(fs0, fs, fs.(cut := map[i := 0]), i);
  }

  ghost predicate SameInodes(a: Fs, b: Fs) { b.inodes == a.inodes }

  /** What the loop over the entries of the indirect block keeps. */
  ghost predicate Cutting(fs0: Fs, was: Fs, fs: Fs, i: nat, j: nat)
  {
    && Dropping(fs0, fs, i) && OnlyCut(fs, i, j) && SameInodes(was, fs) && i in fs.inodes && Root(fs, i) != 0
  }

  /** One turn of the loop over the entries of the indirect block. */
  method DropEntry(dev: Device, i: nat, j: nat, ghost fs0: Fs, ghost was: Fs)
    requires dev.Valid() && j < NINDIRECT && Cutting(fs0, was, dev.fs, i, j)
    modifies dev`blocks, dev`fs
    ensures dev.Valid() && Cutting(fs0, was, dev.fs, i, j + 1)
  {
    ghost var fs := dev.fs;
    hide Inv, Cutting, MapBlock, CutEntry, FreesInMap, WordAt, Root;
    CuttingRoot(fs0, was, fs, i, j);
    var b := WordAt(dev.blocks[dev.inodes[i].addrs[NDIRECT]], j);
    CuttingStep(fs0, was, fs, i, j, b);
    FreeEntry(dev, b, CutEntry(fs, i, j));
  }

  lemma CuttingRoot(fs0: Fs, was: Fs, fs: Fs, i: nat, j: nat)
    requires Inv(fs) && Cutting(fs0, was, fs, i, j)
    ensures i in fs.inodes && |fs.inodes[i].addrs| == NDIRECT + 1
    ensures fs.inodes[i].addrs[NDIRECT] == Root(fs, i) < |fs.blocks|
  {
    RootOwned(fs, i);
  }

  lemma CuttingStep(fs0: Fs, was: Fs, fs: Fs, i: nat, j: nat, b: nat)
    requires Inv(fs) && Cutting(fs0, was, fs, i, j) && j < NINDIRECT && Root(fs, i) < |fs.blocks|
    requires b == WordAt(fs.blocks[Root(fs, i)], j)
    ensures MapBlock(fs.lay, b) < |fs.blocks|
    ensures var r := CutEntry(fs, i, j);
            && Inv(r) && Cutting(fs0, was, r, i, j + 1) && r.inodes == fs.inodes && r.lay == fs.lay
            && if b == 0 then r.blocks == fs.blocks else FreesInMap(fs, r, b)
  {
    hide Inv, Dropping, MapBlock, CutEntry, FreesInMap, WordAt, Root;
    DropEntryOk(fs0, fs, i, j, b);
    CutNext(i, j);
    SameRoot(fs, CutEntry(fs, i, j), i);
  }

  /** The loop over the entries of the indirect block. */
  method DropEntries(dev: Device, i: nat, ghost fs0: Fs)
    requires dev.Valid() && Cutting(fs0, dev.fs, dev.fs, i, 0)
    modifies dev`blocks, dev`fs
    ensures dev.Valid() && Cutting(fs0, old(dev.fs), dev.fs, i, NINDIRECT)
  {
    ghost var fs := dev.fs;
    hide Cutting, Device.Valid;
    var j: nat := 0;
    while j < NINDIRECT
      invariant j <= NINDIRECT && dev.Valid() && Cutting(fs0, fs, dev.fs, i, j)
    {
      DropEntry(dev, i, j, fs0, fs);
      j := j + 1;
    }
  }

  lemma SameRoot(a: Fs, b: Fs, i: nat)
    requires SameInodes(a, b)
    ensures Root(a, i) == Root(b, i) && (i in a.inodes <==> i in b.inodes)
  {
  }

  /** The second half of itrunc: the indirect block and what it lists. */
  method DropIndirect(dev: Device, i: nat, ghost fs0: Fs)
    requires dev.Valid() && i in dev.fs.inodes && Root(dev.fs, i) != 0 && dev.fs.cut == map[]
    requires Dropping(fs0, dev.fs, i)
    modifies dev
    ensures dev.Valid() && Dropping(fs0, dev.fs, i) && dev.fs.cut == map[] && i in dev.fs.inodes
    ensures |old(dev.fs).inodes[i].addrs| == NDIRECT + 1
    ensures dev.fs.inodes[i].addrs == old(dev.fs).inodes[i].addrs[NDIRECT := 0]
  {
    hide Inv, Dropping, Root;
    assert map[i := NINDIRECT] - {i} == map[];
    ghost var fs := dev.fs;
    CutBegins(fs0, fs, i);
    dev.fs := fs.(cut := map[i := 0]);
    SameRoot(fs, dev.fs, i);
    DropEntries(dev, i, fs0);
    DropRoot(dev, i, fs0);
  }

  // ----- the result

  /** Truncation gave back exactly the blocks of inode i, emptied the file and touched no other. */
  ghost predicate Truncated(fs0: Fs, fs: Fs, i: nat)
  {
    && Good(fs) && i in fs.inodes && fs.inodes.Keys == fs0.inodes.Keys
    && fs.inodes[i].size == 0 && (forall k :: 0 <= k <= NDIRECT ==> fs.inodes[i].addrs[k] == 0)
    && (forall x :: x in fs0.inodes && x != i ==> SameFile(fs0, fs, x))
    && (forall b :: b in fs.owner <==> b in fs0.owner && !OwnedBy(fs0.owner[b], i))
    && (forall b :: b in fs.owner ==> fs.owner[b] == fs0.owner[b]) && OnlyInode(fs0, fs, i)
    && TruncLogged(fs0, fs) && Performed(fs0, fs, i)
  }

  lemma BlocksStay(fs: Fs)
    requires Inv(fs)
    ensures Shape(fs) && fs.lay.bmapstart < fs.lay.nmeta
  {
    MapBelowMeta(fs.lay);
  }

  lemma EmptiedAddr(fs: Fs, i: nat, x: nat, bn: nat)
    requires Inv(fs) && CanUpdate(fs, i) && bn < MAXFILE
    ensures Addr(SetSize(fs, i, 0), x, bn) == Addr(fs, x, bn)
  {
    hide Inv, SetSize;
    SetSizeInv(fs, i, 0);
    assert Resolve(SetSize(fs, i, 0), DataSlot(x, bn)) == Resolve(fs, DataSlot(x, bn));
  }

  lemma EmptiedByte(fs0: Fs, fs: Fs, i: nat, x: nat, k: nat)
    requires Inv(fs) && CanUpdate(fs, i) && k < MAXBYTES && Addr(fs0, x, k / BSIZE) != 0
    requires SameData(fs0, fs, x, k / BSIZE)
    ensures FileByte(SetSize(fs, i, 0), x, k) == FileByte(fs0, x, k)
  {
    var a := Addr(fs, x, k / BSIZE);
    hide Inv, SetSize, Resolve;
    EmptiedAddr(fs, i, x, k / BSIZE);
    AddrOwned(fs, x, k / BSIZE);
    BlocksStay(fs);
    SetSizeBlocks(fs, i, 0, a);
    SetSizeLength(fs, i, 0);
  }

  lemma SetSizeLength(fs: Fs, i: nat, n: Word)
    requires CanUpdate(fs, i)
    ensures |SetSize(fs, i, n).blocks| == |fs.blocks|
    ensures SetSize(fs, i, n).inodes == fs.inodes[i := fs.inodes[i].(size := n)]
  {
  }

  lemma EmptiedOthers(fs0: Fs, fs: Fs, i: nat, x: nat)
    requires OthersKept(fs0, fs, i) && x in fs0.inodes && x != i && Backed(fs0, x, fs0.inodes[x].size)
    requires Inv(fs) && CanUpdate(fs, i)
    ensures SameFile(fs0, SetSize(fs, i, 0), x) && Backed(SetSize(fs, i, 0), x, fs0.inodes[x].size)
  {
    hide Inv, SetSize, SameDinodes, Resolve, FileByte, Dinode;
    var r := SetSize(fs, i, 0);
    SetSizeLength(fs, i, 0);
    EmptiedBacked(fs0, fs, i, x);
    forall k | 0 <= k < fs0.inodes[x].size ensures FileByte(r, x, k) == FileByte(fs0, x, k) {
      BlockOf(k, fs0.inodes[x].size);
      assert Addr(fs0, x, k / BSIZE) != 0 && SameData(fs0, fs, x, k / BSIZE);
      EmptiedByte(fs0, fs, i, x, k);
    }
  }

  lemma EmptiedBacked(fs0: Fs, fs: Fs, i: nat, x: nat)
    requires OthersKept(fs0, fs, i) && x in fs0.inodes && x != i && Backed(fs0, x, fs0.inodes[x].size)
    requires Inv(fs) && CanUpdate(fs, i)
    ensures Backed(SetSize(fs, i, 0), x, fs0.inodes[x].size)
  {
    hide Inv, SetSize, SameDinodes, Resolve, Dinode;
    var r := SetSize(fs, i, 0);
    SetSizeLength(fs, i, 0);
    forall bn: nat {:trigger Addr(r, x, bn)} | bn < MAXFILE && bn * BSIZE < fs0.inodes[x].size
      ensures 0 < Addr(r, x, bn) < |r.blocks|
    {
      assert SameData(fs0, fs, x, bn);
      EmptiedAddr(fs, i, x, bn);
    }
  }

  /** With every address gone, no block is left that inode i owned. */
  lemma AllGone(fs: Fs, i: nat, b: nat)
    requires Inv(fs) && i in fs.inodes && (forall k :: 0 <= k <= NDIRECT ==> fs.inodes[i].addrs[k] == 0)
    requires b in fs.owner
    ensures !OwnedBy(fs.owner[b], i)
  {
    assert OwnerOk(fs, b);
    assert 0 in fs.owner && OwnerOk(fs, 0);
  }

  lemma TruncatedOwners(fs0: Fs, fs: Fs, i: nat)
    requires Settled(fs0) && Inv(fs) && i in fs.inodes && fs.cut == map[] && Shrinking(fs0, fs, i)
    requires forall k :: 0 <= k <= NDIRECT ==> fs.inodes[i].addrs[k] == 0
    ensures Settled(fs)
    ensures forall b :: b in fs.owner <==> b in fs0.owner && !OwnedBy(fs0.owner[b], i)
  {
    forall b | b in fs.owner ensures !OwnedBy(fs0.owner[b], i) {
      AllGone(fs, i, b);
    }
  }

  lemma TruncatedFiles(fs0: Fs, fs: Fs, i: nat)
    requires NoHoles(fs0) && Inv(fs) && CanUpdate(fs, i) && OthersKept(fs0, fs, i)
    ensures Inv(SetSize(fs, i, 0)) && NoHoles(SetSize(fs, i, 0))
    ensures forall x :: x in fs0.inodes && x != i ==> SameFile(fs0, SetSize(fs, i, 0), x)
  {
    var r := SetSize(fs, i, 0);
    assert r.inodes == fs.inodes[i := fs.inodes[i].(size := 0)];
    hide Inv, Backed, SameFile, SameSlots, SetSize, SameDinodes;
    SetSizeInv(fs, i, 0);
    assert Backed(r, i, 0) by { NothingBacked(r, i); }
    forall x | x in fs0.inodes && x != i ensures SameFile(fs0, r, x) && Backed(r, x, r.inodes[x].size) {
      assert Backed(fs0, x, fs0.inodes[x].size);
      EmptiedOthers(fs0, fs, i, x);
    }
  }

  lemma NothingBacked(fs: Fs, i: nat)
    ensures Backed(fs, i, 0)
  {
  }

  lemma TruncatedOk(fs0: Fs, fs: Fs, i: nat)
    requires Good(fs0) && Inv(fs) && i in fs.inodes && fs.cut == map[] && Dropping(fs0, fs, i)
    requires forall k :: 0 <= k <= NDIRECT ==> fs.inodes[i].addrs[k] == 0
    ensures CanUpdate(fs, i) && Inv(SetSize(fs, i, 0)) && Truncated(fs0, SetSize(fs, i, 0), i)
  {
    hide NoHoles, SameFile, PutDinode, OnlyInode, Path, Performed, OthersKept, MapsLogged, TruncLogged;
    ShapeUpdates(fs, i);
    assert Shape(fs);
    TruncPerformed(fs0, fs, i);
    SetSizeOnly(fs0, fs, i, 0);
    FewLogged(fs0, fs, i);
    hide Inv;
    TruncatedOwners(fs0, fs, i);
    TruncatedFiles(fs0, fs, i);
  }

  lemma TruncPerformed(fs0: Fs, fs: Fs, i: nat)
    requires Shape(fs) && CanUpdate(fs, i) && i !in fs.cut && Path(fs0, fs, i)
    ensures Performed(fs0, SetSize(fs, i, 0), i)
  {
    hide Path, Shape, SetSize;
    assert Backed(fs, i, 0);
    assert EndsWith(fs0, fs, 0, SetSize(fs, i, 0), i);
  }

  /** The first k addresses of inode i are zero. */
  ghost predicate ZeroAddrs(fs: Fs, i: nat, k: nat)
  {
    k <= NDIRECT + 1 && i in fs.inodes && |fs.inodes[i].addrs| == NDIRECT + 1
    && forall q :: 0 <= q < k ==> fs.inodes[i].addrs[q] == 0
  }

  /** The first loop of itrunc. */
  method DropDirects(dev: Device, i: nat, ghost fs0: Fs)
    requires dev.Valid() && i in dev.fs.inodes && dev.fs.cut == map[] && Dropping(fs0, dev.fs, i)
    modifies dev
    ensures dev.Valid() && Dropping(fs0, dev.fs, i) && dev.fs.cut == map[] && ZeroAddrs(dev.fs, i, NDIRECT)
  {
    assert ZeroAddrs(dev.fs, i, 0);
    hide Inv, Dropping;
    var k := 0;
    while k < NDIRECT
      invariant k <= NDIRECT && dev.Valid() && Dropping(fs0, dev.fs, i) && dev.fs.cut == map[]
      invariant ZeroAddrs(dev.fs, i, k)
    {
      DropDirect(dev, i, k, fs0);
      k := k + 1;
    }
  }

  method Itrunc(dev: Device, i: nat)
    requires dev.Valid() && Good(dev.fs) && i in dev.fs.inodes
    modifies dev
    ensures dev.Valid() && Truncated(old(dev.fs), dev.fs, i)
  {
    hide Good, Inv, Dropping, Truncated;
    ghost var fs0 := dev.fs;
    ShrinkNone(fs0, i);
    DropDirects(dev, i, fs0);
    if dev.inodes[i].addrs[NDIRECT] != 0 {
      DropIndirect(dev, i, fs0);
    }
    ghost var fs := dev.fs;
    TruncatedOk(fs0, fs, i);
    hide PutDinode;
    dev.inodes := dev.inodes[i := dev.inodes[i].(size := 0)];
    dev.Iupdate(i, SetSize(fs, i, 0));
  }

  lemma ShrinkNone(fs: Fs, i: nat)
    requires Good(fs)
    ensures fs.cut == map[] && Dropping(fs, fs, i)
  {
    assert fs.log[|fs.log|..] == [];
    PathSelf(fs, i);
    hide Path;
    forall x: nat, y: nat {:trigger SameData(fs, fs, x, y)} | y < MAXFILE && Addr(fs, x, y) != 0
      ensures SameData(fs, fs, x, y)
    {
      AddrOwned(fs, x, y);
    }
  }
}
