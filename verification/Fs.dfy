/** balloc, bmap, readi, writei and itrunc of kernel/fs.c, run on the state of FsState. */
module FileSystem {
  import opened Blocks
  import opened Naturals
  import opened Bits
  import opened Dinodes
  import opened FsState
  import opened FsContent
  import opened FsLog
  import opened FsSteps
  import opened LogDisk

  /** No block is allocated without being stored anywhere. */
  ghost predicate Settled(fs: Fs)
  {
    fs.cut == map[] && forall b :: b in fs.owner ==> !fs.owner[b].Loose?
  }

  ghost predicate Full(fs: Fs)
    requires Shape(fs)
  {
    forall b :: 0 <= b < fs.lay.size ==> Used(fs, b)
  }

  ghost predicate UsedBelow(fs: Fs, n: nat)
    requires Shape(fs)
  {
    forall b :: 0 <= b < n && b < fs.lay.size ==> Used(fs, b)
  }

  /** What one map block's scan adds. */
  lemma ScanBlock(fs: Fs, b: nat, n: nat, bi: nat)
    requires Shape(fs) && Aligned(b) && b < fs.lay.size && UsedBelow(fs, b)
    requires bi <= n <= BPB && b + n <= fs.lay.size && (n == BPB || b + n == fs.lay.size)
    requires forall k :: 0 <= k < bi ==> BitAt(fs.blocks[MapBlock(fs.lay, b)], k)
    requires bi < n ==> !BitAt(fs.blocks[MapBlock(fs.lay, b)], bi)
    ensures UsedBelow(fs, b + bi)
    ensures if bi < n then b + bi < fs.lay.size && !Used(fs, b + bi) else UsedBelow(fs, b + BPB)
  {
    forall x | b <= x < b + bi ensures Used(fs, x) {
      ScanPosition(b, x - b);
    }
    if bi < n {
      ScanPosition(b, bi);
    }
  }

  /** The scan position b + bi is bit bi of b's map block. */
  lemma ScanPosition(b: nat, bi: nat)
    requires Aligned(b) && bi < BPB
    ensures (b + bi) / BPB == b / BPB && (b + bi) % BPB == bi
  {
  }

  /** b is the first block of a map block. */
  predicate Aligned(b: nat) { b % BPB == 0 }

  lemma AlignedNext(b: nat)
    requires Aligned(b)
    ensures Aligned(b + BPB)
  {
  }

  /** The inner loop of balloc: the first clear bit among the first n of a map block, or n. */
  method FirstClear(bp: Block, n: nat) returns (bi: nat)
    requires n <= BPB
    ensures bi <= n && (forall k :: 0 <= k < bi ==> BitAt(bp, k)) && (bi < n ==> !BitAt(bp, bi))
  {
    bi := 0;
    while bi < n
      invariant bi <= n && forall k :: 0 <= k < bi ==> BitAt(bp, k)
    {
      if !BitAt(bp, bi) {
        return;
      }
      bi := bi + 1;
    }
  }

  /** Allocating a block for ip->addrs[k], on values. */
  function AllocDirectFx(fs: Fs, i: nat, k: nat, b: Word): (r: Fs)
    requires b < |fs.blocks| && MapBlock(fs.lay, b) < |fs.blocks| && i in fs.inodes && k < |fs.inodes[i].addrs|
  {
    var t := Take(fs, b);
    AttachDirect(t, i, k, b)
  }

  lemma AllocDirectOk(fs: Fs, i: nat, k: nat, b: Word)
    requires Inv(fs) && Settled(fs) && i in fs.inodes && k <= NDIRECT && fs.inodes[i].addrs[k] == 0
    requires b < fs.lay.size && b !in fs.owner && b != 0
    ensures MapBlock(fs.lay, b) < |fs.blocks|
    ensures var r := AllocDirectFx(fs, i, k, b);
            && Inv(r) && Settled(r) && Kept(fs, r, i, if k < NDIRECT then k else NONE)
            && r.blocks[b] == ZeroBlock() && r.log == fs.log + [MapBlock(fs.lay, b), b]
  {
    var e := if k < NDIRECT then k else NONE;
    TakeInv(fs, b, i);
    TakeFacts(fs, b);
    var t := Take(fs, b);
    hide Take, Inv, Kept, SameSlots;
    AttachDirectInv(t, i, k, b);
    KeptWeaken(fs, t, i, e);
    KeptTrans(fs, t, AttachDirect(t, i, k, b), i, e);
  }

  lemma KeptWeaken(fs: Fs, r: Fs, i: nat, bn: nat)
    requires Kept(fs, r, i, NONE)
    ensures Kept(fs, r, i, bn)
  {
  }

  function AllocEntryFx(fs: Fs, i: nat, j: nat, b: Word): (r: Fs)
    requires b < |fs.blocks| && MapBlock(fs.lay, b) < |fs.blocks| && j < NINDIRECT && Root(fs, i) < |fs.blocks|
  {
    var t := Take(fs, b);
    AttachEntry(t, i, j, b)
  }

  lemma AllocEntryBlocks(fs: Fs, i: nat, j: nat, b: Word)
    requires b < |fs.blocks| && MapBlock(fs.lay, b) < |fs.blocks| && j < NINDIRECT && Root(fs, i) < |fs.blocks|
    ensures var t, r := Take(fs, b), AllocEntryFx(fs, i, j, b);
            && r.blocks == t.blocks[Root(fs, i) := SetWord(t.blocks[Root(fs, i)], j, b)] && r.inodes == t.inodes
            && r.lay == t.lay
            && |t.blocks| == |fs.blocks| && t.inodes == fs.inodes && t.lay == fs.lay
  {
  }

  lemma AllocEntryInv(fs: Fs, i: nat, j: nat, b: Word)
    requires Inv(fs) && i !in fs.cut && j < NINDIRECT && Root(fs, i) != 0 && Resolve(fs, Entry(i, j)) == 0
    requires b < fs.lay.size && b !in fs.owner
    ensures MapBlock(fs.lay, b) < |fs.blocks| && Root(fs, i) < |fs.blocks|
    ensures Inv(AllocEntryFx(fs, i, j, b)) && Resolve(AllocEntryFx(fs, i, j, b), Entry(i, j)) == b
    ensures Kept(fs, AllocEntryFx(fs, i, j, b), i, NDIRECT + j)
  {
    hide Take, Inv, Kept, SameSlots, Resolve, AttachEntry, Root, MapBlock, Shape;
    InvShape(fs);
    RootOwned(fs, i);
    TakeInv(fs, b, i);
    TakeFacts(fs, b);
    var t := Take(fs, b);
    TakeEntry(fs, t, i, j);
    AttachEntryInv(t, i, j, b);
    AttachEntryKept(t, i, j, b);
    KeptWeaken(fs, t, i, NDIRECT + j);
    KeptTrans(fs, t, AttachEntry(t, i, j, b), i, NDIRECT + j);
  }

  lemma TakeEntry(fs: Fs, t: Fs, i: nat, j: nat)
    requires SameSlots(fs, t) && t.inodes == fs.inodes && j < NINDIRECT
    ensures Resolve(t, Entry(i, j)) == Resolve(fs, Entry(i, j)) && Root(t, i) == Root(fs, i)
  {
  }

  lemma AllocEntryOk(fs: Fs, i: nat, j: nat, b: Word)
    requires Inv(fs) && Settled(fs) && j < NINDIRECT && Root(fs, i) != 0 && Resolve(fs, Entry(i, j)) == 0
    requires b < fs.lay.size && b !in fs.owner && b != 0
    ensures MapBlock(fs.lay, b) < |fs.blocks| && Root(fs, i) < |fs.blocks|
    ensures var r := AllocEntryFx(fs, i, j, b);
            && Inv(r) && Settled(r) && Kept(fs, r, i, NDIRECT + j) && Resolve(r, Entry(i, j)) == b
            && r.blocks[b] == ZeroBlock() && r.log == fs.log + [MapBlock(fs.lay, b), b, Root(fs, i)]
            && Root(r, i) == Root(fs, i)
  {
    hide Take, Inv, Kept, Resolve, AttachEntry, Root, MapBlock, SameSlots, Shape;
    InvShape(fs);
    RootOwned(fs, i);
    AllocEntryInv(fs, i, j, b);
    TakeInv(fs, b, i);
    TakeFacts(fs, b);
    var t := Take(fs, b);
    TakeEntry(fs, t, i, j);
    AttachEntryFacts(t, i, j, b);
  }

  /** What bmap promises, apart from the log: block bn of inode i has an address, a new block is zero,
      nothing else moved; or there is no free block and it still has none. */
  ghost predicate Mapped(fs0: Fs, fs: Fs, i: nat, bn: nat, addr: nat)
    requires bn < MAXFILE
  {
    && Kept(fs0, fs, i, bn) && Settled(fs) && Path(fs0, fs, i)
    && Addr(fs, i, bn) == addr
    && (addr == 0 ==> Shape(fs) && Full(fs))
    && (Addr(fs0, i, bn) == 0 && addr != 0 ==> addr < |fs.blocks| && fs.blocks[addr] == ZeroBlock())
    && (Addr(fs0, i, bn) != 0 ==> fs == fs0)
  }

  lemma NoBlockLeft(fs0: Fs, fs: Fs, i: nat, bn: nat, addr: nat)
    requires bn < MAXFILE && Inv(fs) && Mapped(fs0, fs, i, bn, addr)
    ensures addr == 0 ==> Full(fs)
  {
  }

  lemma KeptSelf(fs: Fs, i: nat, bn: nat)
    requires Inv(fs)
    ensures Kept(fs, fs, i, bn)
  {
    forall x: nat, y: nat {:trigger SameData(fs, fs, x, y)} | y < MAXFILE && Addr(fs, x, y) != 0
      ensures SameData(fs, fs, x, y)
    {
      AddrOwned(fs, x, y);
    }
  }

  /** bmap when the block is there, or cannot be had. */
  lemma MappedAlready(fs: Fs, i: nat, bn: nat)
    requires Inv(fs) && Settled(fs) && bn < MAXFILE && (Addr(fs, i, bn) == 0 ==> Full(fs))
    ensures Mapped(fs, fs, i, bn, Addr(fs, i, bn)) && MapLogged(fs, fs, i, bn, Addr(fs, i, bn), {})
  {
    KeptSelf(fs, i, bn);
    PathSelf(fs, i);
    hide Path;
  }

  lemma AllocDirectLogged(fs: Fs, i: nat, k: nat, b: Word)
    requires i in fs.inodes && k < |fs.inodes[i].addrs| && b < |fs.blocks| && MapBlock(fs.lay, b) < |fs.blocks|
    ensures Logged(fs, AllocDirectFx(fs, i, k, b))
  {
    TakeLogged(fs, b);
    LoggedSame(fs, Take(fs, b), AllocDirectFx(fs, i, k, b));
  }

  lemma AllocEntryLogged(fs: Fs, i: nat, j: nat, b: Word)
    requires b < |fs.blocks| && MapBlock(fs.lay, b) < |fs.blocks| && j < NINDIRECT && Root(fs, i) < |fs.blocks|
    ensures Logged(fs, AllocEntryFx(fs, i, j, b))
  {
    hide Logged;
    TakeLogged(fs, b);
    var t := Take(fs, b);
    var d := SetWord(t.blocks[Root(t, i)], j, b);
    PutLogged(t, Root(t, i), d);
    LoggedSame(t, PutBlock(t, Root(t, i), d), AttachEntry(t, i, j, b));
    LoggedTrans(fs, t, AttachEntry(t, i, j, b));
  }

  lemma AllocEntryPath(fs: Fs, i: nat, j: nat, b: Word)
    requires Inv(fs) && i in fs.inodes && j < NINDIRECT && 0 < Root(fs, i) < |fs.blocks| && i !in fs.cut
    requires Resolve(fs, Entry(i, j)) == 0
    requires b < fs.lay.size && b !in fs.owner && MapBlock(fs.lay, b) < |fs.blocks| && b < |fs.blocks|
    ensures Path(fs, AllocEntryFx(fs, i, j, b), i)
  {
    hide Inv, Path, Resolve;
    PathEntry(fs, i, j, b);
  }

  lemma DirectMapped(fs: Fs, i: nat, bn: nat, b: Word)
    requires Inv(fs) && Settled(fs) && i in fs.inodes && bn < NDIRECT && fs.inodes[i].addrs[bn] == 0
    requires b < fs.lay.size && b !in fs.owner && b != 0 && MapBlock(fs.lay, b) < |fs.blocks|
    ensures Mapped(fs, AllocDirectFx(fs, i, bn, b), i, bn, b)
    ensures MapLogged(fs, AllocDirectFx(fs, i, bn, b), i, bn, b, {MapBlock(fs.lay, b)})
  {
    hide Inv, Settled, IsMap, Logged, Path, Kept, MapBlock, AllocDirectFx, MapLogged;
    InvShape(fs);
    MapIsMap(fs.lay, b);
    AllocDirectLogged(fs, i, bn, b);
    AllocDirectPath(fs, i, bn, b);
    AllocDirectOk(fs, i, bn, b);
    AllocDirectAddr(fs, i, bn, b);
    DirectMapLogged(fs, AllocDirectFx(fs, i, bn, b), i, bn, b);
  }

  lemma AllocDirectPath(fs: Fs, i: nat, k: nat, b: Word)
    requires Inv(fs) && i in fs.inodes && k <= NDIRECT && fs.inodes[i].addrs[k] == 0 && b < |fs.blocks|
    requires b < fs.lay.size && b !in fs.owner && MapBlock(fs.lay, b) < |fs.blocks|
    ensures Path(fs, AllocDirectFx(fs, i, k, b), i)
  {
    hide Path;
    PathDirect(fs, i, k, b);
  }

  lemma AllocDirectAddr(fs: Fs, i: nat, k: nat, b: Word)
    requires Shape(fs) && i in fs.inodes && k < NDIRECT && b < |fs.blocks| && MapBlock(fs.lay, b) < |fs.blocks|
    ensures Addr(fs, i, k) == fs.inodes[i].addrs[k]
    ensures var r := AllocDirectFx(fs, i, k, b);
            && Addr(r, i, k) == b && Root(r, i) == Root(fs, i) && r.lay == fs.lay && |r.blocks| == |fs.blocks|
  {
    hide SetBitAt;
  }

  lemma DirectMapLogged(fs: Fs, r: Fs, i: nat, bn: nat, b: nat)
    requires bn < NDIRECT && Root(r, i) == Root(fs, i) && Addr(fs, i, bn) == 0
    requires r.log == fs.log + [MapBlock(fs.lay, b), b] && r.lay == fs.lay
    requires IsMap(fs.lay, MapBlock(fs.lay, b)) && Logged(fs, r)
    ensures MapLogged(fs, r, i, bn, b, {MapBlock(fs.lay, b)})
  {
    hide Logged, IsMap, MapBlock, Resolve, Root;
  }

  lemma EntryMapped(fs: Fs, i: nat, j: nat, b: Word)
    requires Inv(fs) && Settled(fs) && j < NINDIRECT && Root(fs, i) != 0 && Resolve(fs, Entry(i, j)) == 0
    requires b < fs.lay.size && b !in fs.owner && b != 0
    requires MapBlock(fs.lay, b) < |fs.blocks| && Root(fs, i) < |fs.blocks|
    ensures Mapped(fs, AllocEntryFx(fs, i, j, b), i, NDIRECT + j, b)
    ensures MapLogged(fs, AllocEntryFx(fs, i, j, b), i, NDIRECT + j, b, {MapBlock(fs.lay, b)})
  {
    hide Inv, Settled, Logged, IsMap, Kept, MapBlock, AllocEntryFx, Path, Resolve, Root, Addr, MapLogged, Shape;
    InvShape(fs);
    SettledInode(fs, i);
    MapIsMap(fs.lay, b);
    RootOwned(fs, i);
    AllocEntryLogged(fs, i, j, b);
    AllocEntryPath(fs, i, j, b);
    AllocEntryOk(fs, i, j, b);
    AllocEntryBlocks(fs, i, j, b);
    EntryAddr(fs, i, j);
    EntryAddr(AllocEntryFx(fs, i, j, b), i, j);
    EntryMapLogged(fs, AllocEntryFx(fs, i, j, b), i, j, b);
  }

  lemma SettledInode(fs: Fs, i: nat)
    requires Settled(fs) && Root(fs, i) != 0
    ensures i in fs.inodes && i !in fs.cut
  {
  }

  lemma EntryAddr(fs: Fs, i: nat, j: nat)
    requires j < NINDIRECT
    ensures Addr(fs, i, NDIRECT + j) == Resolve(fs, Entry(i, j))
  {
  }

  lemma EntryMapLogged(fs: Fs, r: Fs, i: nat, j: nat, b: nat)
    requires j < NINDIRECT && Root(r, i) == Root(fs, i) != 0 && Addr(fs, i, NDIRECT + j) == 0
    requires r.log == fs.log + [MapBlock(fs.lay, b), b, Root(fs, i)] && r.lay == fs.lay
    requires IsMap(fs.lay, MapBlock(fs.lay, b)) && Logged(fs, r)
    ensures MapLogged(fs, r, i, NDIRECT + j, b, {MapBlock(fs.lay, b)})
  {
    hide Logged, IsMap, MapBlock, Resolve, Root, Addr;
  }

  /** bmap on a new indirect block, then on an entry of it. */
  lemma RootThenEntry(fs0: Fs, fs1: Fs, fs: Fs, i: nat, j: nat, root: Word, b: nat, maps: set<nat>)
    requires Inv(fs0) && Settled(fs0) && i in fs0.inodes && j < NINDIRECT && Root(fs0, i) == 0
    requires root < fs0.lay.size && root !in fs0.owner && root != 0 && MapBlock(fs0.lay, root) < |fs0.blocks|
    requires fs1 == AllocDirectFx(fs0, i, NDIRECT, root)
    requires Mapped(fs1, fs, i, NDIRECT + j, b) && MapLogged(fs1, fs, i, NDIRECT + j, b, maps)
    ensures Mapped(fs0, fs, i, NDIRECT + j, b)
    ensures MapLogged(fs0, fs, i, NDIRECT + j, b, maps + {MapBlock(fs0.lay, root)})
  {
    AllocDirectOk(fs0, i, NDIRECT, root);
    AllocDirectLogged(fs0, i, NDIRECT, root);
    hide Logged, Path;
    PathDirect(fs0, i, NDIRECT, root);
    PathTrans(fs0, fs1, fs, i);
    KeptWeaken(fs0, fs1, i, NDIRECT + j);
    KeptTrans(fs0, fs1, fs, i, NDIRECT + j);
    assert Root(fs1, i) == root;
    RootLog(fs0, fs1, fs, i, NDIRECT + j, root, b, maps);
  }

  lemma RootLog(fs0: Fs, fs1: Fs, fs: Fs, i: nat, bn: nat, root: nat, b: nat, maps: set<nat>)
    requires bn < MAXFILE && fs1.log == fs0.log + [MapBlock(fs0.lay, root), root] && fs1.lay == fs0.lay
    requires root < fs0.lay.size
    requires Root(fs0, i) == 0 && Root(fs1, i) == root != 0 && Addr(fs0, i, bn) == Addr(fs1, i, bn) == 0
    requires MapLogged(fs1, fs, i, bn, b, maps) && Logged(fs0, fs1)
    ensures MapLogged(fs0, fs, i, bn, b, maps + {MapBlock(fs0.lay, root)})
  {
    MapIsMap(fs0.lay, root);
    LoggedTrans(fs0, fs1, fs);
    hide IsMap, Logged;
    var n := |fs0.log|;
    assert fs.log[..n] == fs.log[..n + 2][..n] == fs0.log;
    assert fs.log[n] == fs.log[..n + 2][n] && fs.log[n + 1] == fs.log[..n + 2][n + 1];
    var m := MapBlock(fs0.lay, root);
    assert |maps + {m}| <= |maps| + 1;
  }

  /** Between operations: ownership is exact, no file has a hole. */
  ghost predicate Good(fs: Fs)
  {
    Inv(fs) && Settled(fs) && NoHoles(fs)
  }

  /** What the free map says of a good state, without the owner map: a block is in use exactly if it is
      metadata or some address of a file holds it, and no two addresses hold the same block. */
  lemma BlockOwnership(fs: Fs, b: nat)
    requires Good(fs) && b < fs.lay.size
    ensures Shape(fs)
    ensures Used(fs, b) <==>
              b < fs.lay.nmeta || exists s: Slot {:trigger Resolve(fs, s)} :: GoodSlot(s) && Resolve(fs, s) == b
    ensures forall s: Slot, t: Slot {:trigger Resolve(fs, s), Resolve(fs, t)} ::
              GoodSlot(s) && GoodSlot(t) && Resolve(fs, s) == Resolve(fs, t) != 0 ==>
                    s == t && Resolve(fs, s) >= fs.lay.nmeta
  {
    if Used(fs, b) && b >= fs.lay.nmeta {
      assert OwnerOk(fs, b);
      assert GoodSlot(fs.owner[b]) && Resolve(fs, fs.owner[b]) == b;
    }
    forall s: Slot {:trigger Resolve(fs, s)} | GoodSlot(s) && Resolve(fs, s) != 0
      ensures SlotOk(fs, s) && fs.lay.nmeta <= Resolve(fs, s) < fs.lay.size && Used(fs, Resolve(fs, s))
    {
      assert SlotOk(fs, s);
      assert OwnerOk(fs, Resolve(fs, s));
    }
  }

  /** Inode i exists and its contents are c. */
  ghost predicate Holds(fs: Fs, i: nat, c: seq<Byte>)
  {
    Good(fs) && i in fs.inodes && Backed(fs, i, fs.inodes[i].size) && c == Content(fs, i)
  }

  /** The loop of writei has copied `tot` bytes in `it` turns. */
  ghost predicate Writing(fs0: Fs, fs: Fs, i: nat, off: nat, src: seq<Byte>, tot: nat, it: nat, da: nat, D: set<nat>,
                          M: set<nat>)
    requires i in fs0.inodes && tot <= |src| && off + |src| <= MAXBYTES && fs0.inodes[i].size <= MAXBYTES
  {
    && Written(fs0, fs, i, off, src, tot) && Logging(fs0, fs, i, off, it, da, D, M) && Settled(fs) && i in fs.inodes
    && Path(fs0, fs, i)
  }

  lemma SpanStart(off: nat, n: nat)
    ensures Span(off, 0) == 0 && AtBlock(off, 0, n)
  {
  }

  lemma WritingStart(fs: Fs, i: nat, off: nat, src: seq<Byte>)
    requires Good(fs) && i in fs.inodes && off <= fs.inodes[i].size && off + |src| <= MAXBYTES
    ensures fs.inodes[i].size <= MAXBYTES && Writing(fs, fs, i, off, src, 0, 0, 0, {}, {})
  {
    forall x: nat, y: nat {:trigger SameData(fs, fs, x, y)} | y < MAXFILE && Addr(fs, x, y) != 0
      ensures SameData(fs, fs, x, y)
    {
      AddrOwned(fs, x, y);
    }
    PathSelf(fs, i);
    hide Path;
  }

  /** The bmap of a turn, whether or not the copy follows. */
  lemma WritingMap(fs0: Fs, fs: Fs, fs1: Fs, i: nat, off: nat, src: seq<Byte>, tot: nat, it: nat, da: nat, D: set<nat>,
                   M: set<nat>,
                   addr: nat, maps: set<nat>)
    requires i in fs0.inodes && tot < |src| && off + |src| <= MAXBYTES && off <= fs0.inodes[i].size <= MAXBYTES
    requires Writing(fs0, fs, i, off, src, tot, it, da, D, M) && (it == 0 ==> tot == 0)
    requires Mapped(fs, fs1, i, (off + tot) / BSIZE, addr) && MapLogged(fs, fs1, i, (off + tot) / BSIZE, addr, maps)
    ensures var da' := da + (if Addr(fs, i, (off + tot) / BSIZE) == 0 then 1 else 0);
            Writing(fs0, fs1, i, off, src, tot, it + 1, da', D + {addr}, M + maps)
  {
    hide Written, Logging, Kept, Path, Settled, MapLogged, Backed, Addr;
    var bn := (off + tot) / BSIZE;
    if it == 0 && off % BSIZE != 0 {
      FirstTurnBacked(fs0, fs, i, off, src);
    }
    MappedKeys(fs, fs1, i, bn, addr);
    PathTrans(fs0, fs, fs1, i);
    WrittenMapped(fs0, fs, fs1, i, off, src, tot, bn);
    LoggingMap(fs0, fs, fs1, i, off, it, da, D, M, bn, addr, maps);
  }

  /** A write that starts inside a block starts in one the file has. */
  lemma FirstTurnBacked(fs0: Fs, fs: Fs, i: nat, off: nat, src: seq<Byte>)
    requires i in fs0.inodes && off + |src| <= MAXBYTES && off <= fs0.inodes[i].size <= MAXBYTES && off % BSIZE != 0
    requires Written(fs0, fs, i, off, src, 0)
    ensures off / BSIZE < MAXFILE && Addr(fs, i, off / BSIZE) != 0
  {
    hide OthersKept, FileByte, Addr;
    assert Backed(fs, i, Max(fs0.inodes[i].size, off));
    assert off / BSIZE * BSIZE < off;
  }

  lemma MappedKeys(fs0: Fs, fs: Fs, i: nat, bn: nat, addr: nat)
    requires bn < MAXFILE && Mapped(fs0, fs, i, bn, addr)
    ensures fs.inodes.Keys == fs0.inodes.Keys
  {
    hide SameDinodes, Path;
  }

  /** The copy of a turn. */
  lemma WritingPut(fs0: Fs, fs: Fs, fs1: Fs, i: nat, off: nat, src: seq<Byte>, tot: nat, m: nat, it: nat, da: nat,
                   D: set<nat>, M: set<nat>,
                   addr: nat)
    requires i in fs0.inodes && tot + m <= |src| && off + |src| <= MAXBYTES && off <= fs0.inodes[i].size <= MAXBYTES
    requires (off + tot) % BSIZE + m <= BSIZE && 0 < m && Inv(fs1) && addr != 0
    requires Written(fs0, fs, i, off, src, tot) && Mapped(fs, fs1, i, (off + tot) / BSIZE, addr)
    requires Writing(fs0, fs1, i, off, src, tot, it, da, D, M) && addr in D
    ensures addr < |fs1.blocks|
    ensures var fs2 := PutBlock(fs1, addr, Patch(fs1.blocks[addr], (off + tot) % BSIZE, src[tot..tot + m]));
            Inv(fs2) && Writing(fs0, fs2, i, off, src, tot + m, it, da, D, M)
  {
    hide Turn, Written, Logging, Inv, Kept, Mapped, Path, Shape, Patch, SameSlots, Addr, Settled;
    var bn, p := (off + tot) / BSIZE, (off + tot) % BSIZE;
    var d := TurnTaken(fs, fs1, i, bn, addr, p, src[tot..tot + m]);
    var fs2 := PutBlock(fs1, addr, d);
    InvUpdates(fs1, i);
    PathPut(fs1, i, bn, d);
    PathTrans(fs0, fs1, fs2, i);
    WrittenStep(fs0, fs, fs1, fs2, i, off, src, tot, m, addr);
    LoggingPut(fs0, fs1, i, off, it, da, D, M, addr, d);
    SettledPut(fs1, addr, d);
  }

  lemma SettledPut(fs: Fs, b: nat, d: Block)
    requires Settled(fs) && b < |fs.blocks|
    ensures Settled(PutBlock(fs, b, d))
  {
  }

  /** The copy into the block bmap found is a turn of the loop. */
  lemma TurnTaken(fs: Fs, fs1: Fs, i: nat, bn: nat, addr: nat, p: nat, s: seq<Byte>) returns (d: Block)
    requires bn < MAXFILE && p + |s| <= BSIZE && Inv(fs1) && addr != 0 && Mapped(fs, fs1, i, bn, addr)
    ensures Addr(fs1, i, bn) == addr < |fs1.blocks| && d == Patch(fs1.blocks[addr], p, s)
    ensures Inv(PutBlock(fs1, addr, d)) && Turn(fs, fs1, PutBlock(fs1, addr, d), i, bn, addr, p, s)
  {
    hide Inv, Kept, Path, Patch, SameSlots, Settled, Resolve;
    AddrOwned(fs1, i, bn);
    d := Patch(fs1.blocks[addr], p, s);
    WriteKeeps(fs1, addr, d, i, bn);
  }

  /** What a write of the first `tot` bytes of src at off does: the bytes are spliced into the file, no
      other file changes, the inode is on the disk, and the state is good again. */
  ghost predicate Wrote(fs0: Fs, fs: Fs, i: nat, off: nat, s: seq<Byte>)
    requires i in fs0.inodes && fs0.inodes[i].size <= MAXBYTES && off <= fs0.inodes[i].size
  {
    && Good(fs) && fs.inodes.Keys == fs0.inodes.Keys && fs.inodes[i].size <= MAXBYTES
    && Content(fs, i) == Splice(Content(fs0, i), off, s)
    && (forall x :: x in fs0.inodes && x != i ==> SameFile(fs0, fs, x))
    && OnlyInode(fs0, fs, i)
  }

  /** Inode i is on the disk as in memory, with its type and links; no other changed, in memory or on the disk. */
  ghost predicate OnlyInode(fs0: Fs, fs: Fs, i: nat)
  {
    && fs.lay == fs0.lay && fs.inodes.Keys == fs0.inodes.Keys && i in fs.inodes
    && (forall x :: x in fs0.inodes && x != i ==> fs.inodes[x] == fs0.inodes[x])
    && fs.inodes[i].kind == fs0.inodes[i].kind && fs.inodes[i].links == fs0.inodes[i].links
    && Dinode(fs, i) == fs.inodes[i]
    && forall x: nat {:trigger Dinode(fs, x)} :: x < fs.lay.ninodes && x != i ==> Dinode(fs, x) == Dinode(fs0, x)
  }

  lemma OnlyInodeSynced(fs0: Fs, fs: Fs, i: nat)
    requires OnlyInode(fs0, fs, i) && Synced(fs0)
    ensures Synced(fs)
  {
    hide Dinode;
    forall x: nat | x < fs.lay.ninodes ensures SyncedAt(fs, x) {
      assert SyncedAt(fs0, x);
    }
  }

  /** The end of an operation on inode i: its size set and iupdate. */
  lemma SetSizeOnly(fs0: Fs, fs: Fs, i: nat, n: Word)
    requires OthersKept(fs0, fs, i) && Shape(fs) && CanUpdate(fs, i)
    ensures OnlyInode(fs0, SetSize(fs, i, n), i)
  {
    var r := SetSize(fs, i, n);
    forall x: nat {:trigger Dinode(r, x)} | x < fs.lay.ninodes
      ensures Dinode(r, x) == if x == i then r.inodes[i] else Dinode(fs0, x)
    {
      SetSizeDinode(fs, i, n, x);
      assert Dinode(fs, x) == Dinode(fs0, x);
    }
  }

  ghost predicate SameFile(fs0: Fs, fs: Fs, x: nat)
  {
    && x in fs0.inodes && x in fs.inodes && fs.inodes[x].size == fs0.inodes[x].size <= MAXBYTES
    && Content(fs, x) == Content(fs0, x)
  }

  lemma FinishBacked(fs: Fs, i: nat, end: nat)
    requires Inv(fs) && CanUpdate(fs, i) && end <= MAXBYTES && Backed(fs, i, Max(fs.inodes[i].size, end))
    ensures var r := Finish(fs, i, end); Backed(r, i, r.inodes[i].size)
  {
    var r := Finish(fs, i, end);
    SetSizeInv(fs, i, Max(fs.inodes[i].size, end));
    forall y: nat {:trigger Addr(r, i, y)} | y < MAXFILE && y * BSIZE < r.inodes[i].size
      ensures 0 < Addr(r, i, y) < |r.blocks|
    {
      assert Addr(fs, i, y) == Addr(r, i, y);
    }
  }

  lemma FinishGood(fs0: Fs, fs: Fs, i: nat, end: nat)
    requires NoHoles(fs0) && Inv(fs) && Settled(fs) && CanUpdate(fs, i) && OthersKept(fs0, fs, i)
    requires end <= MAXBYTES && Backed(fs, i, Max(fs.inodes[i].size, end))
    ensures Good(Finish(fs, i, end)) && Inv(Finish(fs, i, end))
    ensures forall x :: x in fs0.inodes && x != i ==> SameFile(fs0, Finish(fs, i, end), x)
  {
    var r := Finish(fs, i, end);
    SetSizeInv(fs, i, Max(fs.inodes[i].size, end));
    FinishBacked(fs, i, end);
    forall x | x in r.inodes && x != i ensures SameFile(fs0, r, x) && Backed(r, x, r.inodes[x].size) {
      WrittenOthers(fs0, fs, i, end, x);
    }
  }

  /** What Writing says of the inode. */
  lemma WritingInode(fs0: Fs, fs: Fs, i: nat, off: nat, src: seq<Byte>, tot: nat, it: nat, da: nat, D: set<nat>,
                     M: set<nat>)
    requires i in fs0.inodes && tot <= |src| && off + |src| <= MAXBYTES && fs0.inodes[i].size <= MAXBYTES
    requires Inv(fs) && Writing(fs0, fs, i, off, src, tot, it, da, D, M)
    ensures CanUpdate(fs, i) && Shape(fs) && Settled(fs) && OthersKept(fs0, fs, i) && Path(fs0, fs, i)
    ensures Written(fs0, fs, i, off, src, tot)
    ensures fs.inodes.Keys == fs0.inodes.Keys && fs.inodes[i].size == fs0.inodes[i].size
    ensures Backed(fs, i, Max(fs.inodes[i].size, off + tot))
  {
    hide Inv, Logging, Written, OthersKept, Backed, Settled, Path, CanUpdate;
    WrittenKeys(fs0, fs, i, off, src, tot);
    InvUpdates(fs, i);
  }

  lemma GoodHoles(fs: Fs)
    requires Good(fs)
    ensures NoHoles(fs)
  {
  }

  lemma InvUpdates(fs: Fs, i: nat)
    requires Inv(fs) && i in fs.inodes
    ensures CanUpdate(fs, i) && Shape(fs)
  {
    ShapeUpdates(fs, i);
  }

  lemma FinishKeys(fs: Fs, i: nat, end: nat)
    requires CanUpdate(fs, i) && end <= MAXBYTES
    ensures Finish(fs, i, end).inodes.Keys == fs.inodes.Keys
  {
    hide PutDinode;
  }

  lemma WriteFinished(fs0: Fs, fs: Fs, i: nat, off: nat, src: seq<Byte>, tot: nat, it: nat, da: nat, D: set<nat>,
                      M: set<nat>)
    requires Good(fs0) && i in fs0.inodes && tot <= |src| && off + |src| <= MAXBYTES
    requires off <= fs0.inodes[i].size <= MAXBYTES
    requires Inv(fs) && Writing(fs0, fs, i, off, src, tot, it, da, D, M)
    ensures CanUpdate(fs, i)
    ensures Wrote(fs0, Finish(fs, i, off + tot), i, off, src[..tot]) && Good(Finish(fs, i, off + tot))
    ensures Inv(Finish(fs, i, off + tot))
  {
    hide Writing, Good, Inv, NoHoles, Written, Splice, Content, Backed, OthersKept, CanUpdate, Finish, OnlyInode;
    hide SameFile, Settled, Path, Shape;
    GoodHoles(fs0);
    WritingInode(fs0, fs, i, off, src, tot, it, da, D, M);
    WrittenIsSplice(fs0, fs, i, off, src, tot);
    FinishGood(fs0, fs, i, off + tot);
    FinishKeys(fs, i, off + tot);
    FinishOnly(fs0, fs, i, off + tot);
  }

  lemma FinishOnly(fs0: Fs, fs: Fs, i: nat, end: nat)
    requires OthersKept(fs0, fs, i) && Shape(fs) && CanUpdate(fs, i) && end <= MAXBYTES
    ensures OnlyInode(fs0, Finish(fs, i, end), i)
  {
    hide OthersKept, OnlyInode, SetSize, Shape;
    SetSizeOnly(fs0, fs, i, Max(fs.inodes[i].size, end));
  }

  lemma FinishFull(fs: Fs, i: nat, end: nat)
    requires Inv(fs) && CanUpdate(fs, i) && end <= MAXBYTES && Full(fs)
    ensures Shape(Finish(fs, i, end)) && Full(Finish(fs, i, end))
  {
    SetSizeUsed(fs, i, Max(fs.inodes[i].size, end));
  }

  // ----- filewrite

  /** file.c: the most bytes filewrite puts in one transaction. */
  const CHUNK := (10 - 1 - 1 - 2) / 2 * BSIZE

  /** begin_op: a fresh transaction. */
  function BeginOp(fs: Fs): (r: Fs) { fs.(log := []) }

  lemma BeginGood(fs: Fs)
    requires Good(fs)
    ensures Good(BeginOp(fs))
    ensures forall x :: x in fs.inodes ==> SameFile(fs, BeginOp(fs), x)
  {
    var r := BeginOp(fs);
    assert SameSlots(fs, r);
    InvSame(fs, r);
    forall x | x in fs.inodes ensures Backed(r, x, fs.inodes[x].size) && SameFile(fs, r, x) {
      assert Backed(fs, x, fs.inodes[x].size);
      forall y: nat {:trigger Addr(r, x, y)} | y < MAXFILE && y * BSIZE < fs.inodes[x].size
        ensures 0 < Addr(r, x, y) < |r.blocks|
      {
        assert Addr(fs, x, y) == Addr(r, x, y);
      }
    }
  }

  /** After w bytes of src were written at off of inode i, in transactions that all fit the log.  From an
      offset past the end nothing is written. */
  ghost predicate Progress(fs0: Fs, fs: Fs, i: nat, off: nat, src: seq<Byte>, w: nat, logs: seq<seq<nat>>)
    requires i in fs0.inodes && fs0.inodes[i].size <= MAXBYTES && w <= |src|
  {
    && Good(fs) && fs.inodes.Keys == fs0.inodes.Keys && fs.inodes[i].size <= MAXBYTES
    && (if off <= fs0.inodes[i].size then Content(fs, i) == Splice(Content(fs0, i), off, src[..w])
        else w == 0 && SameFile(fs0, fs, i))
    && (forall x :: x in fs0.inodes && x != i ==> SameFile(fs0, fs, x))
    && (forall l :: l in logs ==> FitsTransaction(l) && |Elems(l)| <= MAXOPBLOCKS)
    && (Synced(fs0) ==> Synced(fs))
  }

  lemma ProgressStart(fs: Fs, i: nat, off: nat, src: seq<Byte>)
    requires Good(fs) && i in fs.inodes
    ensures fs.inodes[i].size <= MAXBYTES && Progress(fs, fs, i, off, src, 0, [])
  {
    hide Inv, Settled, Content;
    assert forall x :: x in fs.inodes ==> Backed(fs, x, fs.inodes[x].size);
    if off <= fs.inodes[i].size {
      assert Splice(Content(fs, i), off, src[..0]) == Content(fs, i);
    }
  }

  lemma ProgressFacts(fs0: Fs, fs: Fs, i: nat, off: Word, src: seq<Byte>, w: nat, logs: seq<seq<nat>>)
    requires i in fs0.inodes && fs0.inodes[i].size <= MAXBYTES && w <= |src| && Progress(fs0, fs, i, off, src, w, logs)
    ensures Good(fs) && i in fs.inodes && off as int + w < 0x1_0000_0000
  {
  }

  /** A transaction in which writei refuses changes nothing. */
  /** The next chunk starts past the end of the file exactly if the first one did. */
  lemma ProgressSize(fs0: Fs, fs: Fs, i: nat, off: nat, src: seq<Byte>, w: nat, logs: seq<seq<nat>>)
    requires i in fs0.inodes && fs0.inodes[i].size <= MAXBYTES && w <= |src| && Progress(fs0, fs, i, off, src, w, logs)
    ensures i in fs.inodes && (off + w > fs.inodes[i].size <==> off > fs0.inodes[i].size)
  {
    hide Good, FileByte, FitsTransaction, Elems, Synced;
    if off <= fs0.inodes[i].size {
      assert |Content(fs, i)| == |Splice(Content(fs0, i), off, src[..w])|;
    }
  }

  /** How far a chunk gets: to its end, if the device does not fill up and no copy within it fails. */
  lemma ChunkDone(fs0: Fs, fs: Fs, i: nat, off: nat, s: seq<Byte>, copies: nat, r: nat)
    requires WriteDone(fs0, fs, i, off, s, copies, r)
    ensures r <= |s| && Shape(fs) && (r < |s| ==> Full(fs) || copies < Span(off, |s|))
    ensures copies < Span(off, |s|) ==> r < |s|
  {
    hide Good, Wrote, WriteLogged, Performed, Full, Span, Shape;
    GoodShape(fs);
  }

  lemma BeginShape(fs: Fs)
    requires Shape(fs)
    ensures Shape(BeginOp(fs))
  {
  }

  /** The copy that fails in the k-th transaction of filewrite falls within its chunk. */
  ghost predicate Fails(off: nat, n: nat, faults: nat -> nat, k: nat)
  {
    k * CHUNK < n && faults(k) < Span(off + k * CHUNK, Min(CHUNK, n - k * CHUNK))
  }

  lemma ProgressRefused(fs0: Fs, fs: Fs, i: nat, off: nat, src: seq<Byte>, w: nat, logs: seq<seq<nat>>)
    requires i in fs0.inodes && fs0.inodes[i].size <= MAXBYTES && w <= |src| && Progress(fs0, fs, i, off, src, w, logs)
    ensures Progress(fs0, BeginOp(fs), i, off, src, w, logs)
  {
    hide Good, Content, Splice, FitsTransaction, Elems;
    var b := BeginOp(fs);
    BeginGood(fs);
    assert SameFile(fs, b, i);
    hide Synced;
    if Synced(fs) {
      SyncedSame(fs, b);
    }
    forall x | x in fs0.inodes && x != i ensures SameFile(fs0, b, x) {
      SameFileTrans(fs0, fs, b, x);
    }
  }

  /** One transaction of filewrite. */
  lemma ProgressStep(fs0: Fs, fs: Fs, fs2: Fs, i: nat, off: nat, src: seq<Byte>, w: nat, m: nat, copies: nat, r: nat,
                     logs: seq<seq<nat>>)
    requires i in fs0.inodes && fs0.inodes[i].size <= MAXBYTES && w + m <= |src| && m <= CHUNK
    requires Progress(fs0, fs, i, off, src, w, logs)
    requires WriteDone(BeginOp(fs), fs2, i, off + w, src[w..w + m], copies, r)
    ensures r <= m && Progress(fs0, fs2, i, off, src, w + r, logs + [fs2.log])
  {
    hide Good, Content, Splice, SameFile, FitsTransaction, Elems, WriteLogged, Wrote, Full, Span, Synced, Performed;
    ProgressBytes(fs0, fs, fs2, i, off, src, w, m, copies, r, logs);
    ProgressOthers(fs0, fs, fs2, i, off, src, w, m, copies, r, logs);
    ChunkFits(BeginOp(fs), fs2, off + w, m);
    ProgressSynced(fs, fs2, i, off + w, src[w..w + m], copies, r);
  }

  lemma ProgressSynced(fs: Fs, fs2: Fs, i: nat, off: nat, src: seq<Byte>, copies: nat, r: nat)
    requires WriteDone(BeginOp(fs), fs2, i, off, src, copies, r)
    ensures Synced(fs) ==> Synced(fs2)
  {
    hide Good, Wrote, Synced;
    WroteSynced(BeginOp(fs), fs2, i, off, src[..r]);
    if Synced(fs) {
      SyncedSame(fs, BeginOp(fs));
    }
  }

  lemma ProgressBytes(fs0: Fs, fs: Fs, fs2: Fs, i: nat, off: nat, src: seq<Byte>, w: nat, m: nat, copies: nat, r: nat,
                      logs: seq<seq<nat>>)
    requires i in fs0.inodes && fs0.inodes[i].size <= MAXBYTES && w + m <= |src|
    requires Progress(fs0, fs, i, off, src, w, logs)
    requires WriteDone(BeginOp(fs), fs2, i, off + w, src[w..w + m], copies, r)
    ensures r <= m && off <= fs0.inodes[i].size && i in fs2.inodes && fs2.inodes[i].size <= MAXBYTES
    ensures Content(fs2, i) == Splice(Content(fs0, i), off, src[..w + r])
  {
    var b := BeginOp(fs);
    assert off <= fs0.inodes[i].size;
    BeginGood(fs);
    assert SameFile(fs, b, i);
    hide Good, Splice, WriteLogged;
    ProgressContent(Content(fs0, i), Content(fs, i), Content(b, i), Content(fs2, i), off, src, w, m, r);
  }

  lemma ProgressOthers(fs0: Fs, fs: Fs, fs2: Fs, i: nat, off: nat, src: seq<Byte>, w: nat, m: nat, copies: nat, r: nat,
                       logs: seq<seq<nat>>)
    requires i in fs0.inodes && fs0.inodes[i].size <= MAXBYTES && w + m <= |src|
    requires Progress(fs0, fs, i, off, src, w, logs)
    requires WriteDone(BeginOp(fs), fs2, i, off + w, src[w..w + m], copies, r)
    ensures Good(fs2) && fs2.inodes.Keys == fs0.inodes.Keys
    ensures forall x :: x in fs0.inodes && x != i ==> SameFile(fs0, fs2, x)
  {
    var b := BeginOp(fs);
    hide Synced, OnlyInode;
    hide Good, Content, Splice, WriteLogged, SameFile;
    BeginGood(fs);
    forall x | x in fs0.inodes && x != i ensures SameFile(fs0, fs2, x) {
      assert SameFile(fs0, fs, x) && SameFile(fs, b, x) && SameFile(b, fs2, x);
      SameFileTrans(fs0, fs, b, x);
      SameFileTrans(fs0, b, fs2, x);
    }
  }

  lemma WroteSynced(fs0: Fs, fs: Fs, i: nat, off: nat, s: seq<Byte>)
    requires i in fs0.inodes && fs0.inodes[i].size <= MAXBYTES && off <= fs0.inodes[i].size && Wrote(fs0, fs, i, off, s)
    ensures Synced(fs0) ==> Synced(fs)
  {
    hide Good, Content, SameFile, Synced, OnlyInode;
    if Synced(fs0) {
      OnlyInodeSynced(fs0, fs, i);
    }
  }

  lemma SameFileTrans(a: Fs, b: Fs, c: Fs, x: nat)
    requires SameFile(a, b, x) && SameFile(b, c, x)
    ensures SameFile(a, c, x)
  {
  }

  lemma ProgressContent(c0: seq<Byte>, c: seq<Byte>, cb: seq<Byte>, c2: seq<Byte>, off: nat, src: seq<Byte>, w: nat,
                        m: nat, r: nat)
    requires off <= |c0| && w + m <= |src| && r <= m && c == Splice(c0, off, src[..w]) && cb == c
    requires off + w <= |cb| && c2 == Splice(cb, off + w, src[w..w + m][..r])
    ensures c2 == Splice(c0, off, src[..w + r])
  {
    SpliceTwice(c0, off, src[..w], src[w..w + m][..r]);
    assert src[..w] + src[w..w + m][..r] == src[..w + r];
  }

  /** What the loop of writei leaves to its last lines. */
  ghost predicate LoopDone(fs0: Fs, fs: Fs, i: nat, off: nat, src: seq<Byte>, copies: nat, tot: nat)
  {
    && Good(fs0) && i in fs0.inodes && tot <= |src| && off + |src| <= MAXBYTES && off <= fs0.inodes[i].size <= MAXBYTES
    && Inv(fs)
    && (exists it: nat, da: nat, D: set<nat>, M: set<nat> :: Writing(fs0, fs, i, off, src, tot, it, da, D, M) &&
          it <= Span(off, |src|) && (|src| > 0 ==> it > 0))
    && (tot < |src| ==> Full(fs) || copies < Span(off, |src|)) && (copies < Span(off, |src|) ==> tot < |src|)
  }

  /** The contract of writei past its checks. */
  ghost predicate WriteDone(fs0: Fs, fs: Fs, i: nat, off: nat, src: seq<Byte>, copies: nat, tot: nat)
  {
    && i in fs0.inodes && off <= fs0.inodes[i].size <= MAXBYTES && tot <= |src|
    && Good(fs) && Wrote(fs0, fs, i, off, src[..tot]) && WriteLogged(fs0, fs, off, |src|) && Performed(fs0, fs, i)
    && (tot < |src| ==> Full(fs) || copies < Span(off, |src|)) && (copies < Span(off, |src|) ==> tot < |src|)
  }

  lemma LoopDoneFinish(fs0: Fs, fs: Fs, i: nat, off: nat, src: seq<Byte>, copies: nat, tot: nat)
    requires LoopDone(fs0, fs, i, off, src, copies, tot)
    ensures CanUpdate(fs, i) && off + tot <= MAXBYTES && Inv(Finish(fs, i, off + tot))
    ensures WriteDone(fs0, Finish(fs, i, off + tot), i, off, src, copies, tot)
  {
    hide Good, Inv, Written, Logging, Wrote, Finish, Full, Span, WriteLogged, Settled, Writing, Performed, CanUpdate;
    hide Shape;
    var it: nat, da: nat, D: set<nat>, M: set<nat> :|
          Writing(fs0, fs, i, off, src, tot, it, da, D, M) && it <= Span(off, |src|) && (|src| > 0 ==> it > 0);
    WriteFinished(fs0, fs, i, off, src, tot, it, da, D, M);
    if tot < |src| && copies >= Span(off, |src|) {
      FinishFull(fs, i, off + tot);
    }
    WritingLogging(fs0, fs, i, off, src, tot, it, da, D, M);
    LoggingEnd(fs0, fs, i, off, |src|, it, da, D, M, off + tot);
    WritePerformed(fs0, fs, i, off, src, tot, it, da, D, M);
  }

  lemma WritingLogging(fs0: Fs, fs: Fs, i: nat, off: nat, src: seq<Byte>, tot: nat, it: nat, da: nat, D: set<nat>,
                       M: set<nat>)
    requires i in fs0.inodes && tot <= |src| && off + |src| <= MAXBYTES && fs0.inodes[i].size <= MAXBYTES
    requires Writing(fs0, fs, i, off, src, tot, it, da, D, M)
    ensures Logging(fs0, fs, i, off, it, da, D, M)
  {
    hide Logging, Written, Path, Settled;
  }

  lemma WritePerformed(fs0: Fs, fs: Fs, i: nat, off: nat, src: seq<Byte>, tot: nat, it: nat, da: nat, D: set<nat>,
                       M: set<nat>)
    requires i in fs0.inodes && tot <= |src| && off + |src| <= MAXBYTES && fs0.inodes[i].size <= MAXBYTES
    requires Inv(fs) && CanUpdate(fs, i) && Writing(fs0, fs, i, off, src, tot, it, da, D, M)
    ensures Performed(fs0, Finish(fs, i, off + tot), i)
  {
    hide Inv, Writing, Path, SetSize, Backed, Shape, OthersKept;
    WritingInode(fs0, fs, i, off, src, tot, it, da, D, M);
    assert EndsWith(fs0, fs, Max(fs.inodes[i].size, off + tot), Finish(fs, i, off + tot), i);
  }

  lemma SlotDone(fs0: Fs, fs: Fs, i: nat, off: nat, page: seq<Byte>, copies: nat, r: nat)
    requires WriteDone(fs0, fs, i, off, page, copies, r) && fs0.log == [] && |page| == 4 * BSIZE
    requires off % (4 * BSIZE) == 0 && MapBlocks(fs0.lay) <= 4
    ensures FitsTransaction(fs.log) && |Elems(fs.log)| <= MAXOPBLOCKS
    ensures r <= |page| && (r < |page| ==> copies < 4 || (Shape(fs) && Full(fs))) && (copies < 4 ==> r < |page|)
  {
    hide Good, Wrote, WriteLogged, FitsTransaction, Elems, MapBlocks, Span, Performed;
    SwapFits(fs0, fs, off);
    SwapSpan(off);
    GoodShape(fs);
  }

  lemma GoodShape(fs: Fs)
    requires Good(fs)
    ensures Shape(fs)
  {
  }

  /** The loop of readi has delivered the first `tot` bytes from off, in k copies. */
  ghost predicate ReadSoFar(c: seq<Byte>, off: nat, n: nat, copies: nat, tot: nat, k: nat, dst: seq<Byte>)
  {
    && tot <= n && off + n <= |c| && dst == c[off..off + tot]
    && k == Span(off, tot) <= copies && AtBlock(off, tot, n)
  }

  lemma ReadStart(c: seq<Byte>, off: nat, n: nat, copies: nat)
    requires off + n <= |c|
    ensures ReadSoFar(c, off, n, copies, 0, 0, [])
  {
  }

  lemma ReadStep(c: seq<Byte>, off: nat, n: nat, copies: nat, tot: nat, k: nat, dst: seq<Byte>)
    requires tot < n && ReadSoFar(c, off, n, copies, tot, k, dst)
    ensures k <= copies && |dst| == tot && dst == c[off..off + tot] && (k == copies ==> copies < Span(off, n))
    ensures var m := Piece(off + tot, n - tot);
            k < copies ==> ReadSoFar(c, off, n, copies, tot + m, k + 1, dst + c[off + tot..off + tot + m])
  {
    SpanStep(off, tot, n);
  }

  lemma ReadEnd(c: seq<Byte>, off: nat, n: nat, copies: nat, tot: nat, k: nat, dst: seq<Byte>)
    requires tot == n && ReadSoFar(c, off, n, copies, tot, k, dst)
    ensures |dst| == n && dst == c[off..off + n] && Span(off, n) <= copies
  {
  }

  class Device {
    const lay: Layout
    var blocks: seq<Block>
    var inodes: map<nat, Inode>
    ghost var fs: Fs

    ghost predicate Valid()
      reads this
    {
      fs.lay == lay && fs.blocks == blocks && fs.inodes == inodes && Inv(fs)
    }

    /** The scan of balloc: the first free block, or 0. */
    method FindFree() returns (r: Word)
      requires Valid()
      ensures r == 0 <==> Full(fs)
      ensures r != 0 ==> r < lay.size && !Used(fs, r) && UsedBelow(fs, r)
    {
      assert Used(fs, 0) && Shape(fs);
      var b := 0;
      assert Aligned(b);
      hide Inv, Used, MapBlock, Aligned;
      while b < lay.size
        invariant Aligned(b)
        invariant UsedBelow(fs, b)
      {
        var n := if lay.size - b < BPB then lay.size - b else BPB;
        var bi := FirstClear(blocks[MapBlock(lay, b)], n);
        ScanBlock(fs, b, n, bi);
        if bi < n {
          return b + bi;
        }
        AlignedNext(b);
        b := b + BPB;
      }
      r := 0;
    }

    /** balloc: the first free block, marked in use and zeroed; 0 when there is none. */
    method Balloc(ghost i: nat) returns (r: Word)
      requires Valid()
      modifies this`blocks, this`fs
      ensures Valid()
      ensures r == 0 <==> Full(old(fs))
      ensures r == 0 ==> fs == old(fs)
      ensures r != 0 ==>
                r < lay.size && r !in old(fs).owner && MapBlock(lay, r) < |old(fs).blocks| && fs == Take(old(fs), r)
      ensures SameSlots(old(fs), fs) && Kept(old(fs), fs, i, NONE)
    {
      r := FindFree();
      if r != 0 {
        TakeInv(fs, r, i);
        var mb := lay.bmapstart + r / BPB;
        blocks := blocks[mb := SetBitAt(blocks[mb], r % BPB, true)];
        blocks := blocks[r := ZeroBlock()];
        fs := Take(fs, r);
      }
    }

    /** bmap's allocation of a block for ip->addrs[k]. */
    method AllocDirect(i: nat, k: nat) returns (b: Word)
      requires Valid() && Settled(fs) && i in fs.inodes && k <= NDIRECT && fs.inodes[i].addrs[k] == 0
      modifies this
      ensures Valid()
      ensures b == 0 ==> fs == old(fs) && Full(fs)
      ensures b != 0 ==>
                b < lay.size && b !in old(fs).owner && MapBlock(lay, b) < |old(fs).blocks| &&
                fs == AllocDirectFx(old(fs), i, k, b)
    {
      ghost var fs0 := fs;
      b := Balloc(i);
      if b != 0 {
        AllocDirectOk(fs0, i, k, b);
        inodes := inodes[i := inodes[i].(addrs := inodes[i].addrs[k := b])];
        fs := AllocDirectFx(fs0, i, k, b);
      }
    }

    /** bmap's allocation of a block for entry j of the indirect block. */
    method AllocEntry(i: nat, j: nat) returns (b: Word)
      requires Valid() && Settled(fs) && i in fs.inodes && j < NINDIRECT && Root(fs, i) != 0
      requires Resolve(fs, Entry(i, j)) == 0
      modifies this
      ensures Valid()
      ensures b == 0 ==> fs == old(fs) && Full(fs)
      ensures b != 0 ==> b < lay.size && b !in old(fs).owner && MapBlock(lay, b) < |old(fs).blocks|
                         && Root(old(fs), i) < |old(fs).blocks| && fs == AllocEntryFx(old(fs), i, j, b)
    {
      ghost var fs0 := fs;
      RootOwned(fs, i);
      assert fs.lay.size == |fs.blocks|;
      hide AllocEntryFx, Take, Inv, Kept, SameSlots, Resolve, Settled;
      b := Balloc(i);
      if b != 0 {
        AllocEntryOk(fs0, i, j, b);
        AllocEntryBlocks(fs0, i, j, b);
        StoreEntry(i, j, b, AllocEntryFx(fs0, i, j, b));
      }
    }

    /** `a[bn] = addr` in the indirect block. */
    method StoreEntry(i: nat, j: nat, b: Word, ghost r: Fs)
      requires Valid() && i in fs.inodes && 0 < Root(fs, i) < |fs.blocks| && j < NINDIRECT
      requires Inv(r) && r.lay == fs.lay && r.inodes == fs.inodes
      requires r.blocks == fs.blocks[Root(fs, i) := SetWord(fs.blocks[Root(fs, i)], j, b)]
      modifies this`blocks, this`fs
      ensures Valid() && fs == r
    {
      hide Inv;
      var root := inodes[i].addrs[NDIRECT];
      blocks := blocks[root := SetWord(blocks[root], j, b)];
      fs := r;
    }

    /** bmap: the address of block bn of inode i, allocating it, and the indirect block, if needed. */
    method Bmap(i: nat, bn: nat) returns (addr: Word, ghost maps: set<nat>)
      requires Valid() && Settled(fs) && i in fs.inodes && bn < MAXFILE
      modifies this
      ensures Valid() && Mapped(old(fs), fs, i, bn, addr) && MapLogged(old(fs), fs, i, bn, addr, maps)
    {
      if bn < NDIRECT {
        addr, maps := BmapDirect(i, bn);
      } else if inodes[i].addrs[NDIRECT] != 0 {
        addr, maps := BmapEntry(i, bn - NDIRECT);
      } else {
        addr, maps := BmapRoot(i, bn - NDIRECT);
      }
    }

    /** bmap of a direct block. */
    method BmapDirect(i: nat, bn: nat) returns (addr: Word, ghost maps: set<nat>)
      requires Valid() && Settled(fs) && i in fs.inodes && bn < NDIRECT
      modifies this
      ensures Valid() && Mapped(old(fs), fs, i, bn, addr) && MapLogged(old(fs), fs, i, bn, addr, maps)
    {
      ghost var fs0 := fs;
      maps := {};
      addr := inodes[i].addrs[bn];
      if addr != 0 {
        MappedAlready(fs, i, bn);
        return;
      }
      addr := AllocDirect(i, bn);
      hide Mapped, MapLogged, AllocDirectFx;
      if addr != 0 {
        DirectMapped(fs0, i, bn, addr);
        maps := {MapBlock(lay, addr)};
      } else {
        MappedAlready(fs, i, bn);
      }
    }

    /** bmap when the indirect block must be allocated first. */
    method BmapRoot(i: nat, j: nat) returns (addr: Word, ghost maps: set<nat>)
      requires Valid() && Settled(fs) && i in fs.inodes && j < NINDIRECT && Root(fs, i) == 0
      modifies this
      ensures Valid() && Mapped(old(fs), fs, i, NDIRECT + j, addr) && MapLogged(old(fs), fs, i, NDIRECT + j, addr, maps)
    {
      ghost var fs0 := fs;
      var root := AllocDirect(i, NDIRECT);
      if root == 0 {
        MappedAlready(fs, i, NDIRECT + j);
        return 0, {};
      }
      ghost var fs1 := fs;
      AllocDirectOk(fs0, i, NDIRECT, root);
      hide Mapped, MapLogged;
      addr, maps := BmapEntry(i, j);
      RootThenEntry(fs0, fs1, fs, i, j, root, addr, maps);
      maps := maps + {MapBlock(lay, root)};
    }

    /** bmap once the indirect block exists. */
    method BmapEntry(i: nat, j: nat) returns (addr: Word, ghost maps: set<nat>)
      requires Valid() && Settled(fs) && i in fs.inodes && j < NINDIRECT && Root(fs, i) != 0
      modifies this
      ensures Valid() && Mapped(old(fs), fs, i, NDIRECT + j, addr) && MapLogged(old(fs), fs, i, NDIRECT + j, addr, maps)
    {
      ghost var fs0 := fs;
      RootOwned(fs, i);
      maps := {};
      addr := WordAt(blocks[inodes[i].addrs[NDIRECT]], j);
      if addr != 0 {
        MappedAlready(fs, i, NDIRECT + j);
        return;
      }
      addr := AllocEntry(i, j);
      hide Mapped, MapLogged, AllocEntryFx;
      if addr != 0 {
        EntryMapped(fs0, i, j, addr);
        maps := {MapBlock(lay, addr)};
      } else {
        MappedAlready(fs, i, NDIRECT + j);
      }
    }

    /** readi, with the copy numbered `copies` failing: the bytes delivered and the result. */
    method Readi(i: nat, off: Word, n: Word, copies: nat) returns (r: int, dst: seq<Byte>)
      requires Valid() && Good(fs) && i in fs.inodes
      modifies this
      ensures Valid() && fs == old(fs) && fs.inodes[i].size <= MAXBYTES
      ensures off > fs.inodes[i].size || off as int + n as int >= 0x1_0000_0000 ==> r == 0 && dst == []
      ensures off <= fs.inodes[i].size && off as int + n as int < 0x1_0000_0000 ==>
                && dst <= Content(fs, i)[off..]
                && (var want: nat := if off as int + n as int > fs.inodes[i].size then fs.inodes[i].size - off else n;
                    && (r == -1 || r == |dst| == want)
                    && (r == -1 <==> copies < Span(off, want)))
    {
      r, dst := 0, [];
      var size := inodes[i].size;
      if off > size || off as int + n as int >= 0x1_0000_0000 {
        return;
      }
      var want := if off as int + n as int > size then size - off else n;
      r, dst := ReadLoop(i, off, want, copies, Content(fs, i));
    }

    /** The loop of readi, over bytes the file has. */
    method ReadLoop(i: nat, off: nat, n: nat, copies: nat, ghost c: seq<Byte>) returns (r: int, dst: seq<Byte>)
      requires Valid() && Holds(fs, i, c) && off + n <= |c|
      modifies this
      ensures Valid() && fs == old(fs)
      ensures |dst| <= n && dst == c[off..off + |dst|] && (r == -1 || r == |dst| == n)
      ensures r == -1 <==> copies < Span(off, n)
    {
      var tot, k := 0, 0;
      dst := [];
      hide Holds, Inv, ReadSoFar, Piece, Span;
      ReadStart(c, off, n, copies);
      while tot < n
        invariant tot <= n && Valid() && fs == old(fs) && ReadSoFar(c, off, n, copies, tot, k, dst)
      {
        var m := Piece(off + tot, n - tot);
        var piece := ReadPiece(i, off + tot, m, c);
        ReadStep(c, off, n, copies, tot, k, dst);
        if k == copies {
          return -1, dst;
        }
        dst := dst + piece;
        tot, k := tot + m, k + 1;
      }
      ReadEnd(c, off, n, copies, tot, k, dst);
      r := tot;
    }

    /** One turn of the loop in readi: bmap allocates nothing, because there are no holes. */
    method ReadPiece(i: nat, pos: nat, m: nat, ghost c: seq<Byte>) returns (s: seq<Byte>)
      requires Valid() && Holds(fs, i, c) && pos + m <= |c| && 0 < m && pos % BSIZE + m <= BSIZE
      modifies this
      ensures Valid() && fs == old(fs) && s == c[pos..pos + m]
    {
      BlockOf(pos, fs.inodes[i].size);
      assert Addr(fs, i, pos / BSIZE) != 0;
      ContentChunk(fs, i, pos, m);
      var addr, maps := Bmap(i, pos / BSIZE);
      s := blocks[addr][pos % BSIZE..pos % BSIZE + m];
    }

    /** The copy of a turn of the loop in writei. */
    method PutPiece(addr: nat, p: nat, s: seq<Byte>)
      requires Valid() && addr < |fs.blocks| && p + |s| <= BSIZE
      requires Inv(PutBlock(fs, addr, Patch(fs.blocks[addr], p, s)))
      modifies this`blocks, this`fs
      ensures Valid() && fs == PutBlock(old(fs), addr, Patch(old(fs).blocks[addr], p, s))
    {
      blocks := blocks[addr := Patch(blocks[addr], p, s)];
      fs := PutBlock(fs, addr, Patch(fs.blocks[addr], p, s));
    }

    /** The loop of writei, with the copy numbered `copies` failing. */
    method WriteLoop(i: nat, off: nat, src: seq<Byte>, copies: nat) returns (tot: nat)
      requires Valid() && Good(fs) && i in fs.inodes && off <= fs.inodes[i].size && off + |src| <= MAXBYTES
      modifies this
      ensures Valid() && LoopDone(old(fs), fs, i, off, src, copies, tot)
    {
      hide Good, Inv, Span, AtBlock, Piece, Writing, Full;
      ghost var fs0 := fs;
      WritingStart(fs, i, off, src);
      SpanStart(off, |src|);
      ghost var it: nat, da: nat, D: set<nat>, M: set<nat> := 0, 0, {}, {};
      tot := 0;
      var k := 0;
      while tot < |src|
        invariant tot <= |src| && k == it == Span(off, tot) <= Span(off, |src|) && AtBlock(off, tot, |src|)
        invariant (tot > 0 ==> it > 0) && (it == 0 ==> tot == 0) && k <= copies
        invariant Valid() && Writing(fs0, fs, i, off, src, tot, it, da, D, M)
      {
        SpanStep(off, tot, |src|);
        var m := Piece(off + tot, |src| - tot);
        var stop: bool;
        stop, da, D, M := WriteTurn(i, off, src, tot, m, k == copies, fs0, it, da, D, M);
        it := it + 1;
        if stop {
          return;
        }
        tot, k := tot + m, k + 1;
      }
    }

    /** One turn of the loop in writei; stops without copying if there is no block or the copy fails. */
    method WriteTurn(i: nat, off: nat, src: seq<Byte>, tot: nat, m: nat, fault: bool,
                     ghost fs0: Fs, ghost it: nat, ghost da: nat, ghost D: set<nat>, ghost M: set<nat>)
      returns (stop: bool, ghost da': nat, ghost D': set<nat>, ghost M': set<nat>)
      requires i in fs0.inodes && tot + m <= |src| && off + |src| <= MAXBYTES && off <= fs0.inodes[i].size <= MAXBYTES
      requires (off + tot) % BSIZE + m <= BSIZE && 0 < m && (it == 0 ==> tot == 0)
      requires Valid() && Writing(fs0, fs, i, off, src, tot, it, da, D, M)
      modifies this
      ensures Valid() && Writing(fs0, fs, i, off, src, if stop then tot else tot + m, it + 1, da', D', M')
      ensures (stop ==> Full(fs) || fault) && (fault ==> stop)
    {
      ghost var had := fs;
      BlockOf(off + tot, MAXBYTES);
      assert Settled(fs) && i in fs.inodes && Written(fs0, fs, i, off, src, tot);
      hide Inv, Settled, Written, Writing, MapLogged, Mapped, Full;
      var addr, maps := Bmap(i, (off + tot) / BSIZE);
      WritingMap(fs0, had, fs, i, off, src, tot, it, da, D, M, addr, maps);
      da', D', M' := da + (if Addr(had, i, (off + tot) / BSIZE) == 0 then 1 else 0), D + {addr}, M + maps;
      stop := addr == 0 || fault;
      NoBlockLeft(had, fs, i, (off + tot) / BSIZE, addr);
      if !stop {
        CopyPiece(i, off, src, tot, m, addr, fs0, had, it + 1, da', D', M');
      }
    }

    /** The copy of a turn that has its block. */
    method CopyPiece(i: nat, off: nat, src: seq<Byte>, tot: nat, m: nat, addr: nat,
                     ghost fs0: Fs, ghost had: Fs, ghost it: nat, ghost da: nat, ghost D: set<nat>, ghost M: set<nat>)
      requires i in fs0.inodes && tot + m <= |src| && off + |src| <= MAXBYTES && off <= fs0.inodes[i].size <= MAXBYTES
      requires (off + tot) % BSIZE + m <= BSIZE && 0 < m && addr != 0 && addr in D && (off + tot) / BSIZE < MAXFILE
      requires Written(fs0, had, i, off, src, tot) && Mapped(had, fs, i, (off + tot) / BSIZE, addr)
      requires Valid() && Writing(fs0, fs, i, off, src, tot, it, da, D, M)
      modifies this`blocks, this`fs
      ensures Valid() && Writing(fs0, fs, i, off, src, tot + m, it, da, D, M)
    {
      hide Inv, Written, Writing, Mapped, Patch;
      WritingPut(fs0, had, fs, i, off, src, tot, m, it, da, D, M, addr);
      PutPiece(addr, (off + tot) % BSIZE, src[tot..tot + m]);
    }

    /** writei, with the copy numbered `copies` failing. */
    method Writei(i: nat, off: Word, src: seq<Byte>, copies: nat) returns (r: int)
      requires Valid() && Good(fs) && i in fs.inodes && |src| < 0x1_0000_0000
      modifies this
      ensures Valid()
      ensures r == -1 <==> off > old(fs).inodes[i].size || off as int + |src| > MAXBYTES
      ensures r == -1 ==> fs == old(fs)
      ensures r != -1 ==> 0 <= r && WriteDone(old(fs), fs, i, off, src, copies, r)
    {
      if off > inodes[i].size || off as int + |src| >= 0x1_0000_0000 {
        return -1;
      }
      if off as int + |src| > MAXBYTES {
        return -1;
      }
      r := WriteIn(i, off, src, copies);
    }

    /** writei past its two checks. */
    method WriteIn(i: nat, off: nat, src: seq<Byte>, copies: nat) returns (tot: nat)
      requires Valid() && Good(fs) && i in fs.inodes && off <= fs.inodes[i].size && off + |src| <= MAXBYTES
      modifies this
      ensures Valid() && WriteDone(old(fs), fs, i, off, src, copies, tot)
    {
      hide Good, Inv, LoopDone, WriteDone, Finish;
      ghost var fs0 := fs;
      tot := WriteLoop(i, off, src, copies);
      LoopDoneFinish(fs0, fs, i, off, src, copies, tot);
      GrowAndUpdate(i, off + tot);
    }

    /** iupdate: the inode copied to its place in its block. */
    method Iupdate(i: nat, ghost r: Fs)
      requires i in inodes && |inodes[i].addrs| == NDIRECT + 1 && InodeBlock(lay, i) < |blocks|
      requires Inv(r) && r.lay == lay && r.inodes == inodes
      requires r.blocks == blocks[InodeBlock(lay, i) := PutDinode(blocks[InodeBlock(lay, i)], i % IPB, inodes[i])]
      modifies this`blocks, this`fs
      ensures Valid() && fs == r
    {
      hide Inv, PutDinode;
      var b := lay.inodestart + i / IPB;
      blocks := blocks[b := PutDinode(blocks[b], i % IPB, inodes[i])];
      fs := r;
    }

    /** The end of writei: the size grown if need be, and iupdate. */
    method GrowAndUpdate(i: nat, end: nat)
      requires Valid() && CanUpdate(fs, i) && end <= MAXBYTES && Inv(Finish(fs, i, end))
      modifies this
      ensures Valid() && fs == Finish(old(fs), i, end)
    {
      hide Inv, PutDinode;
      if end > inodes[i].size {
        inodes := inodes[i := inodes[i].(size := end)];
      }
      ghost var r := Finish(fs, i, end);
      assert inodes == r.inodes;
      Iupdate(i, r);
    }

    /** What ilock reads of an inode whose in-memory copy is not valid: its place on the disk. */
    method ReadInode(i: nat) returns (ip: Inode)
      requires Valid() && i < lay.ninodes
      ensures ip == Dinode(fs, i)
      ensures Synced(fs) && i in fs.inodes ==> ip == fs.inodes[i]
    {
      assert InodeBlock(lay, i) < lay.bmapstart;
      MapBelowMeta(lay);
      ip := DinodeAt(blocks[lay.inodestart + i / IPB], i % IPB);
      assert Synced(fs) ==> SyncedAt(fs, i);
    }

    /** One transaction of filewrite: begin_op, writei, end_op. */
    method WriteChunk(i: nat, off: Word, s: seq<Byte>, copies: nat) returns (r: int)
      requires Valid() && Good(fs) && i in fs.inodes && |s| < 0x1_0000_0000
      modifies this
      ensures Valid() && -1 <= r
      ensures r == -1 <==> off > old(fs).inodes[i].size || off as int + |s| > MAXBYTES
      ensures r == -1 ==> fs == BeginOp(old(fs))
      ensures r != -1 ==> WriteDone(BeginOp(old(fs)), fs, i, off, s, copies, r)
    {
      BeginGood(fs);
      hide Good, WriteDone;
      fs := BeginOp(fs);
      r := Writei(i, off, s, copies);
    }

    /** The transaction of swapout_page: a page written at its slot of the swap file.  It fits the log, so log_write
        does not panic. */
    method WriteSlot(i: nat, slot: nat, page: seq<Byte>, copies: nat) returns (r: int)
      requires Valid() && Good(fs) && i in fs.inodes && |page| == 4 * BSIZE && slot < 1024 && MapBlocks(lay) <= 4
      modifies this
      ensures Valid() && -1 <= r <= |page|
      ensures r == -1 <==> slot * (4 * BSIZE) > old(fs).inodes[i].size || (slot + 1) * (4 * BSIZE) > MAXBYTES
      ensures r == -1 ==> fs == BeginOp(old(fs))
      ensures 0 <= r < |page| ==> copies < 4 || (Shape(fs) && Full(fs))
      ensures copies < 4 ==> r < |page|
      ensures r != -1 ==> WriteDone(BeginOp(old(fs)), fs, i, slot * (4 * BSIZE), page, copies, r)
      ensures r != -1 ==> FitsTransaction(fs.log) && |Elems(fs.log)| <= MAXOPBLOCKS
    {
      hide Good, Inv, WriteDone, FitsTransaction, Elems, MapBlocks;
      ghost var f0 := BeginOp(fs);
      var off := slot * (4 * BSIZE);
      r := WriteChunk(i, off, page, copies);
      if r != -1 {
        SlotDone(f0, fs, i, off, page, copies, r);
      }
    }

    /** One turn of the loop in filewrite, after `done` bytes. */
    method WriteNext(i: nat, off: Word, src: seq<Byte>, done: nat, n1: nat, copies: nat, ghost fs0: Fs,
                     ghost logs: seq<seq<nat>>)
      returns (r: int, ghost logs': seq<seq<nat>>)
      requires i in fs0.inodes && fs0.inodes[i].size <= MAXBYTES && done + n1 <= |src| && n1 <= CHUNK
      requires Valid() && Progress(fs0, fs, i, off, src, done, logs)
      modifies this
      ensures Valid() && -1 <= r <= n1 && Shape(fs)
      ensures r == -1 <==> off > fs0.inodes[i].size || off as int + done + n1 > MAXBYTES
      ensures 0 <= r < n1 ==> copies < Span(off as int + done, n1) || Full(fs)
      ensures copies < Span(off as int + done, n1) ==> r < n1
      ensures Progress(fs0, fs, i, off, src, done + (if r == -1 then 0 else r), logs')
    {
      hide Good, Inv, Progress, WriteDone, Shape, Full, Span;
      ghost var was := fs;
      ProgressFacts(fs0, fs, i, off, src, done, logs);
      ProgressSize(fs0, fs, i, off, src, done, logs);
      r := WriteChunk(i, off as int + done, src[done..done + n1], copies);
      if r == -1 {
        ProgressRefused(fs0, was, i, off, src, done, logs);
        logs' := logs;
        GoodShape(was);
        BeginShape(was);
      } else {
        ProgressStep(fs0, was, fs, i, off, src, done, n1, copies, r, logs);
        logs' := logs + [fs.log];
        ChunkDone(BeginOp(was), fs, i, off as int + done, src[done..done + n1], copies, r);
      }
    }

    /** The inode branch of filewrite at file offset `off`: src goes to the file in transactions of at most
        CHUNK bytes, each fitting the log; `faults(k)` numbers the copy that fails in the k-th one.
        Returns the result, the new file offset and (ghost) the log_write calls of each transaction. */
    method FileWrite(i: nat, off: Word, src: seq<Byte>, faults: nat -> nat)
      returns (ret: int, end: nat, ghost logs: seq<seq<nat>>)
      requires Valid() && Good(fs) && i in fs.inodes && |src| < 0x8000_0000
      modifies this
      ensures Valid() && off <= end <= off as int + |src| && old(fs).inodes[i].size <= MAXBYTES
      ensures Progress(old(fs), fs, i, off, src, end - off, logs)
      ensures ret == if end == off as int + |src| then |src| else -1
      ensures ret == -1 ==> off > old(fs).inodes[i].size || off as int + |src| > MAXBYTES || (Shape(fs) && Full(fs)) ||
                            exists k: nat :: Fails(off, |src|, faults, k)
      ensures |src| > 0 && (off > old(fs).inodes[i].size || off as int + |src| > MAXBYTES) ==> ret == -1
      ensures (exists k: nat :: Fails(off, |src|, faults, k)) ==> ret == -1
    {
      hide Good, Inv, Progress, Span, Full, Shape;
      ghost var fs0 := fs;
      ProgressStart(fs, i, off, src);
      logs := [];
      var done, k := 0, 0;
      while done < |src|
        invariant done <= |src| && Valid() && Progress(fs0, fs, i, off, src, done, logs)
        invariant done == Min(k * CHUNK, |src|) && forall j: nat :: j < k ==> !Fails(off, |src|, faults, j)
        invariant done > 0 ==> off <= fs0.inodes[i].size && off as int + done <= MAXBYTES
      {
        var n1 := if |src| - done > CHUNK then CHUNK else |src| - done;
        var r;
        r, logs := WriteNext(i, off, src, done, n1, faults(k), fs0, logs);
        assert Fails(off, |src|, faults, k) <==> faults(k) < Span(off as int + done, n1);
        if r != n1 {
          return -1, off as int + done + (if r == -1 then 0 else r), logs;
        }
        done, k := done + r, k + 1;
      }
      ret, end := |src|, off as int + done;
    }
  }
}
