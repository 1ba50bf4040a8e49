/** bfree of kernel/fs.c, and the steps in which itrunc gives back the blocks of an inode. */
module FsFree {
  import opened Blocks
  import opened Dinodes
  import opened Bits
  import opened FsState
  import opened FsLog

  /** Block b freed: its map bit cleared, nobody its owner. */
  function Release(fs: Fs, b: nat): (r: Fs)
    requires MapBlock(fs.lay, b) < |fs.blocks|
  {
    var m := Mark(fs, b, false);
    m.(owner := fs.owner - {b})
  }

  /** The inodes with address k of inode i zero. */
  function ZeroedAddr(inodes: map<nat, Inode>, i: nat, k: nat): (r: map<nat, Inode>)
    requires i in inodes && k < |inodes[i].addrs|
  {
    inodes[i := inodes[i].(addrs := inodes[i].addrs[k := 0])]
  }

  /** `bfree(ip->addrs[k]); ip->addrs[k] = 0` */
  function FreeAddr(fs: Fs, i: nat, k: nat): (r: Fs)
    requires i in fs.inodes && k < |fs.inodes[i].addrs| && MapBlock(fs.lay, fs.inodes[i].addrs[k]) < |fs.blocks|
  {
    var m := Release(fs, fs.inodes[i].addrs[k]);
    m.(inodes := ZeroedAddr(fs.inodes, i, k))
  }

  lemma ReleaseSlots(fs: Fs, b: nat, s: Slot)
    requires Inv(fs) && b < fs.lay.size && GoodSlot(s)
    ensures MapBlock(fs.lay, b) < |fs.blocks| && Resolve(Release(fs, b), s) == Resolve(fs, s)
  {
    MarkSlots(fs, b, false);
    assert Resolve(Mark(fs, b, false), s) == Resolve(fs, s);
  }

  /** The block in a slot can be freed: its map bit is set. */
  lemma SlotUsed(fs: Fs, s: Slot)
    requires Inv(fs) && GoodSlot(s) && Resolve(fs, s) != 0
    ensures Resolve(fs, s) < fs.lay.size && Used(fs, Resolve(fs, s)) && fs.lay.nmeta <= Resolve(fs, s)
    ensures Resolve(fs, s) in fs.owner && fs.owner[Resolve(fs, s)] == s
  {
    assert SlotOk(fs, s);
    assert OwnerOk(fs, Resolve(fs, s));
  }

  /** Freeing what slot x held, given that the slot is empty afterwards and no other moved. */
  lemma FreeInv(fs: Fs, r: Fs, b: nat, x: Slot)
    requires Inv(fs) && GoodSlot(x) && Resolve(fs, x) == b != 0 && Resolve(r, x) == 0 && SameSlotsBut(fs, r, x)
    requires MapBlock(fs.lay, b) < |fs.blocks|
    requires r.lay == fs.lay && r.blocks == Release(fs, b).blocks && r.owner == fs.owner - {b} && Shape(r)
    ensures Inv(r)
  {
    hide Inv, SetBitAt, BitAt, SameSlotsBut;
    InvShape(fs);
    SlotUsed(fs, x);
    ReleaseUsed(fs, r, b);
    hide Resolve, Release;
    InvFree(fs, r, b, x);
  }

  lemma ReleaseUsed(fs: Fs, r: Fs, b: nat)
    requires Shape(fs) && Shape(r) && b < fs.lay.size && MapBlock(fs.lay, b) < |fs.blocks|
    requires r.lay == fs.lay && r.blocks == Release(fs, b).blocks
    ensures UsedBut(fs, r, b, false)
  {
    hide SetBitAt, BitAt;
    MarkUsed(fs, b, false);
    forall y | 0 <= y < fs.lay.size ensures Used(r, y) == if y == b then false else Used(fs, y) {
      assert Used(Mark(fs, b, false), y) == if y == b then false else Used(fs, y);
    }
  }

  lemma FreeAddrInv(fs: Fs, i: nat, k: nat)
    requires Inv(fs) && i in fs.inodes && k < NDIRECT && fs.inodes[i].addrs[k] != 0
    ensures MapBlock(fs.lay, fs.inodes[i].addrs[k]) < |fs.blocks| && Inv(FreeAddr(fs, i, k))
  {
    hide Inv, SetBitAt, BitAt;
    InvShape(fs);
    var x := Direct(i, k);
    var b := fs.inodes[i].addrs[k];
    assert b == Resolve(fs, x);
    SlotUsed(fs, x);
    MapOwner(fs, b);
    var r := FreeAddr(fs, i, k);
    forall s: Slot {:trigger Resolve(r, s)} | GoodSlot(s) && s != x ensures Resolve(r, s) == Resolve(fs, s) {
      ReleaseSlots(fs, b, s);
    }
    assert Shape(r) && Resolve(r, x) == 0;
    FreeInv(fs, r, b, x);
  }

  /** Entry j of the indirect block of inode i, the one being cut, given back if it is in use. */
  function CutEntry(fs: Fs, i: nat, j: nat): (r: Fs)
    requires j < NINDIRECT && Root(fs, i) < |fs.blocks|
    requires MapBlock(fs.lay, WordAt(fs.blocks[Root(fs, i)], j)) < |fs.blocks|
  {
    var b := WordAt(fs.blocks[Root(fs, i)], j);
    if b == 0 then fs.(cut := fs.cut[i := j + 1])
    else
      var m := Release(fs, b);
      m.(cut := fs.cut[i := j + 1])
  }

  /** The first j entries of inode i's indirect block have been freed. */
  predicate CutAt(fs: Fs, i: nat, j: nat) { i in fs.cut && fs.cut[i] == j }

  lemma CutEntryInv(fs: Fs, i: nat, j: nat)
    requires Inv(fs) && j < NINDIRECT && Root(fs, i) != 0 && CutAt(fs, i, j)
    ensures Root(fs, i) < |fs.blocks| && MapBlock(fs.lay, WordAt(fs.blocks[Root(fs, i)], j)) < |fs.blocks|
    ensures Inv(CutEntry(fs, i, j))
  {
    hide Inv, SetBitAt, Shape;
    RootOwned(fs, i);
    InvShape(fs);
    var b := WordAt(fs.blocks[Root(fs, i)], j);
    assert b == Resolve(fs, Entry(i, j));
    hide WordAt;
    if b != 0 {
      SlotUsed(fs, Entry(i, j));
      MapOwner(fs, b);
      CutOneInv(fs, i, j, b);
    } else {
      MapOwner(fs, 0);
      CutNoneInv(fs, i, j);
    }
  }

  lemma CutOneInv(fs: Fs, i: nat, j: nat, b: nat)
    requires Inv(fs) && j < NINDIRECT && 0 < Root(fs, i) < |fs.blocks| && CutAt(fs, i, j)
    requires b == WordAt(fs.blocks[Root(fs, i)], j) == Resolve(fs, Entry(i, j)) != 0
    requires b < fs.lay.size && MapBlock(fs.lay, b) < |fs.blocks|
    ensures Inv(CutEntry(fs, i, j))
  {
    var x, r := Entry(i, j), CutEntry(fs, i, j);
    forall s: Slot {:trigger Resolve(r, s)} | GoodSlot(s) && s != x ensures Resolve(r, s) == Resolve(fs, s) {
      CutSlots(fs, i, j, b, s);
    }
    assert Shape(r) && Resolve(r, x) == 0;
    hide Inv, WordAt, Resolve, SetBitAt, Shape;
    FreeInv(fs, r, b, x);
  }

  lemma CutNoneInv(fs: Fs, i: nat, j: nat)
    requires Inv(fs) && j < NINDIRECT && 0 < Root(fs, i) < |fs.blocks| && CutAt(fs, i, j)
    requires WordAt(fs.blocks[Root(fs, i)], j) == 0 && MapBlock(fs.lay, 0) < |fs.blocks|
    ensures Inv(CutEntry(fs, i, j))
  {
    var r := CutEntry(fs, i, j);
    assert Shape(r) && SameSlots(fs, r);
    hide Inv, WordAt, SameSlots;
    InvSame(fs, r);
  }

  lemma CutSlots(fs: Fs, i: nat, j: nat, b: nat, s: Slot)
    requires Inv(fs) && j < NINDIRECT && Root(fs, i) != 0 && CutAt(fs, i, j)
    requires b == Resolve(fs, Entry(i, j)) != 0 && b < fs.lay.size && MapBlock(fs.lay, b) < |fs.blocks|
    requires GoodSlot(s) && s != Entry(i, j)
    ensures var m := Release(fs, b); Resolve(m.(cut := fs.cut[i := j + 1]), s) == Resolve(fs, s)
  {
    ReleaseSlots(fs, b, s);
  }

  lemma FreeRootInv(fs: Fs, i: nat)
    requires Inv(fs) && i in fs.inodes && Root(fs, i) != 0 && CutAt(fs, i, NINDIRECT)
    ensures MapBlock(fs.lay, Root(fs, i)) < |fs.blocks|
    ensures var m := FreeAddr(fs, i, NDIRECT); Inv(m.(cut := fs.cut - {i}))
  {
    hide Inv, SetBitAt, BitAt;
    InvShape(fs);
    var x := Direct(i, NDIRECT);
    var b := Root(fs, i);
    assert b == Resolve(fs, x);
    SlotUsed(fs, x);
    MapOwner(fs, b);
    var m := FreeAddr(fs, i, NDIRECT);
    var r := m.(cut := fs.cut - {i});
    forall s: Slot {:trigger Resolve(r, s)} | GoodSlot(s) && s != x ensures Resolve(r, s) == Resolve(fs, s) {
      ReleaseSlots(fs, b, s);
    }
    assert Shape(r) && Resolve(r, x) == 0;
    FreeInv(fs, r, b, x);
  }

  predicate OwnedBy(s: Slot, i: nat)
  {
    (s.Direct? || s.Entry?) && s.ino == i
  }

  /** Since fs0 only blocks of the free map have changed, and they are logged. */
  ghost predicate MapsLogged(fs0: Fs, fs: Fs)
  {
    Logged(fs0, fs) && fs.lay == fs0.lay && forall x :: x in fs.log[|fs0.log|..] ==> IsMap(fs0.lay, x)
  }

  lemma MapsTrans(a: Fs, b: Fs, c: Fs)
    requires MapsLogged(a, b) && MapsLogged(b, c)
    ensures MapsLogged(a, c)
  {
    LoggedTrans(a, b, c);
    var n, m := |a.log|, |b.log|;
    assert c.log[n..] == c.log[..m][n..] + c.log[m..];
  }

  lemma MapsSame(a: Fs, b: Fs, c: Fs)
    requires MapsLogged(a, b) && c.blocks == b.blocks && c.log == b.log && c.lay == b.lay
    ensures MapsLogged(a, c)
  {
  }

  lemma ReleaseLogged(fs: Fs, b: nat)
    requires b < fs.lay.size && MapBlock(fs.lay, b) < |fs.blocks|
    ensures MapsLogged(fs, Release(fs, b))
  {
    var m := MapBlock(fs.lay, b);
    MapIsMap(fs.lay, b);
    PutLogged(fs, m, SetBitAt(fs.blocks[m], b % BPB, false));
    assert Release(fs, b).log[|fs.log|..] == [m];
  }

  /** A step that frees at most block b of inode i. */
  ghost predicate Shrinks(fs: Fs, r: Fs, i: nat, b: nat)
  {
    && Inv(fs) && |r.blocks| == |fs.blocks| && b in fs.owner && OwnedBy(fs.owner[b], i)
    && r.lay == fs.lay && r.inodes.Keys == fs.inodes.Keys && SameDinodes(fs, r)
    && (forall x :: x in fs.inodes ==>
          SameButAddrs(r.inodes[x], fs.inodes[x]) && (x != i ==> r.inodes[x] == fs.inodes[x]))
    && r.owner == fs.owner - {b}
    && (forall y :: fs.lay.nmeta <= y < |fs.blocks| ==> r.blocks[y] == fs.blocks[y]) && MapsLogged(fs, r)
    && (forall s: Slot {:trigger Resolve(r, s)} :: GoodSlot(s) && s.ino != i ==> Resolve(r, s) == Resolve(fs, s))
  }

  lemma MarkBlocks(fs: Fs, b: nat)
    requires Inv(fs) && b < fs.lay.size
    ensures MapBlock(fs.lay, b) < |fs.blocks|
    ensures forall y :: fs.lay.nmeta <= y < |fs.blocks| ==> Release(fs, b).blocks[y] == fs.blocks[y]
    ensures SameDinodes(fs, Release(fs, b))
  {
    assert MapBlock(fs.lay, b) < fs.lay.nmeta;
    var m := MapBlock(fs.lay, b);
    WriteNonInode(fs, m, SetBitAt(fs.blocks[m], b % BPB, false));
    SameDinodesOwner(fs, Mark(fs, b, false), Release(fs, b));
  }

  lemma FreeAddrShrinks(fs: Fs, i: nat, k: nat)
    requires Inv(fs) && i in fs.inodes && k <= NDIRECT && fs.inodes[i].addrs[k] != 0
    ensures MapBlock(fs.lay, fs.inodes[i].addrs[k]) < |fs.blocks|
    ensures Shrinks(fs, FreeAddr(fs, i, k), i, fs.inodes[i].addrs[k])
  {
    hide MapsLogged, Inv, SetBitAt, MapBlock, SameDinodes, Release;
    InvShape(fs);
    var b := fs.inodes[i].addrs[k];
    assert b == Resolve(fs, Direct(i, k));
    SlotUsed(fs, Direct(i, k));
    MarkBlocks(fs, b);
    ReleaseFacts(fs, b);
    var r := FreeAddr(fs, i, k);
    ReleaseLogged(fs, b);
    MapsSame(fs, Release(fs, b), r);
    SameDinodesOwner(fs, Release(fs, b), r);
    hide Shape;
    forall s: Slot {:trigger Resolve(r, s)} | GoodSlot(s) && s.ino != i ensures Resolve(r, s) == Resolve(fs, s) {
      ReleaseSlots(fs, b, s);
      CutElse(Release(fs, b), r, i, s);
    }
  }

  lemma CutEntryShrinks(fs: Fs, i: nat, j: nat, b: nat)
    requires Inv(fs) && j < NINDIRECT && Root(fs, i) != 0 && CutAt(fs, i, j)
    requires Root(fs, i) < |fs.blocks| && b == WordAt(fs.blocks[Root(fs, i)], j) != 0
    ensures MapBlock(fs.lay, b) < |fs.blocks| && Shrinks(fs, CutEntry(fs, i, j), i, b)
  {
    hide MapsLogged, Inv, SetBitAt, MapBlock, SameDinodes, Release, Shape;
    InvShape(fs);
    assert b == Resolve(fs, Entry(i, j));
    SlotUsed(fs, Entry(i, j));
    MarkBlocks(fs, b);
    ReleaseFacts(fs, b);
    var r := CutEntry(fs, i, j);
    ReleaseLogged(fs, b);
    MapsSame(fs, Release(fs, b), r);
    SameDinodesOwner(fs, Release(fs, b), r);
    hide WordAt;
    forall s: Slot {:trigger Resolve(r, s)} | GoodSlot(s) && s.ino != i ensures Resolve(r, s) == Resolve(fs, s) {
      ReleaseSlots(fs, b, s);
      CutElse(Release(fs, b), r, i, s);
    }
  }

  lemma ReleaseFacts(fs: Fs, b: nat)
    requires MapBlock(fs.lay, b) < |fs.blocks|
    ensures var m := Release(fs, b);
            && m.inodes == fs.inodes && m.lay == fs.lay && |m.blocks| == |fs.blocks| && m.owner == fs.owner - {b}
            && m.cut == fs.cut
  {
  }

  /** The slots of an inode depend on its addresses, its indirect block and what of it has been freed. */
  lemma CutElse(m: Fs, r: Fs, i: nat, s: Slot)
    requires GoodSlot(s) && s.ino != i && r.blocks == m.blocks
    requires (s.ino in r.inodes <==> s.ino in m.inodes) && (s.ino in r.inodes ==> r.inodes[s.ino] == m.inodes[s.ino])
    requires (s.ino in r.cut <==> s.ino in m.cut) && (s.ino in r.cut ==> r.cut[s.ino] == m.cut[s.ino])
    ensures Resolve(r, s) == Resolve(m, s)
  {
  }

  lemma CutStart(fs: Fs, i: nat)
    requires Inv(fs) && i !in fs.cut
    ensures Inv(fs.(cut := fs.cut[i := 0]))
  {
    var r := fs.(cut := fs.cut[i := 0]);
    assert SameSlots(fs, r);
    InvSame(fs, r);
  }
}
