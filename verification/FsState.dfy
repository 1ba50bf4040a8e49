/** The block layer of kernel/fs.c as a value: the blocks as the buffer cache shows them, the
    in-memory inodes, and who owns each allocated block. */
module FsState {
  import opened Blocks
  import opened Bits
  import opened Dinodes

  const NINDIRECT := WORDS
  const MAXFILE := NDIRECT + NINDIRECT
  const BPB := BSIZE * 8

  /** Where mkfs put things: blocks below `nmeta` are metadata, the free map starts at `bmapstart`,
      the inodes from `inodestart` up to it, IPB to a block. */
  datatype Layout = Layout(size: nat, nmeta: nat, bmapstart: nat, inodestart: nat, ninodes: nat)

  /** Every place a block number of a file can be stored; index NDIRECT is the indirect block. */
  datatype Slot = Meta | Loose | Direct(ino: nat, k: nat) | Entry(ino: nat, j: nat)

  /** `inodes` are the in-memory copies.  `owner` gives the one slot of each block in use (Loose: allocated
      and not yet stored).  Of an inode i in `cut` the first cut[i] entries of the indirect block have been
      freed.  `log` lists the log_write calls of the current operation. */
  datatype Fs = Fs(lay: Layout, blocks: seq<Block>, inodes: map<nat, Inode>, owner: map<nat, Slot>,
                   cut: map<nat, nat>, log: seq<nat>)

  function MapBlock(l: Layout, b: nat): (r: nat)
  {
    l.bmapstart + b / BPB
  }

  function InodeBlock(l: Layout, i: nat): (r: nat)
  {
    l.inodestart + i / IPB
  }

  ghost predicate GoodLayout(l: Layout)
  {
    && 0 < l.nmeta <= l.size < 0x1_0000_0000
    && (forall b :: 0 <= b < l.size ==> MapBlock(l, b) < l.nmeta)
    && 0 < l.inodestart && (forall i :: 0 <= i < l.ninodes ==> InodeBlock(l, i) < l.bmapstart)
  }

  ghost predicate Shape(fs: Fs)
  {
    && GoodLayout(fs.lay) && |fs.blocks| == fs.lay.size
    && (forall i :: i in fs.inodes ==> |fs.inodes[i].addrs| == NDIRECT + 1 && i < fs.lay.ninodes)
    && (forall i :: i in fs.cut ==> fs.cut[i] <= NINDIRECT)
  }

  // ----- the free map

  /** The free map says block b is in use. */
  predicate Used(fs: Fs, b: nat)
    requires b < fs.lay.size && MapBlock(fs.lay, b) < |fs.blocks|
  {
    BitAt(fs.blocks[MapBlock(fs.lay, b)], b % BPB)
  }

  // ----- slots

  predicate GoodSlot(s: Slot)
  {
    (s.Direct? && s.k <= NDIRECT) || (s.Entry? && s.j < NINDIRECT)
  }

  /** The address of inode i's indirect block, 0 if it has none. */
  function Root(fs: Fs, i: nat): (r: nat)
  {
    if i in fs.inodes && |fs.inodes[i].addrs| == NDIRECT + 1 then fs.inodes[i].addrs[NDIRECT] else 0
  }

  /** The block number stored in a slot, 0 if none. */
  function Resolve(fs: Fs, s: Slot): (b: nat)
    requires GoodSlot(s)
  {
    if s.Direct? then
      if s.ino in fs.inodes && s.k < |fs.inodes[s.ino].addrs| then fs.inodes[s.ino].addrs[s.k] else 0
    else
      var r := Root(fs, s.ino);
      if 0 < r < |fs.blocks| && (s.ino in fs.cut ==> fs.cut[s.ino] <= s.j) then WordAt(fs.blocks[r], s.j) else 0
  }

  /** Block ownership: a free-map bit is set exactly for the blocks that are metadata or stored in
      exactly one slot (or loose). */
  ghost predicate Inv(fs: Fs)
  {
    && Shape(fs)
    && (forall b :: 0 <= b < fs.lay.size ==> (Used(fs, b) <==> b in fs.owner))
    && (forall b :: b in fs.owner ==> OwnerOk(fs, b))
    && (forall b :: 0 <= b < fs.lay.nmeta ==> b in fs.owner)
    && (forall s: Slot {:trigger Resolve(fs, s)} :: GoodSlot(s) && Resolve(fs, s) != 0 ==> SlotOk(fs, s))
  }

  lemma InvShape(fs: Fs)
    requires Inv(fs)
    ensures Shape(fs) && |fs.blocks| == fs.lay.size && 0 < fs.lay.nmeta <= fs.lay.size < 0x1_0000_0000
  {
  }

  ghost predicate OwnerOk(fs: Fs, b: nat)
    requires b in fs.owner
  {
    && b < fs.lay.size
    && (fs.owner[b].Meta? <==> b < fs.lay.nmeta)
    && (fs.owner[b].Direct? || fs.owner[b].Entry? ==> GoodSlot(fs.owner[b]) && Resolve(fs, fs.owner[b]) == b)
  }

  ghost predicate SlotOk(fs: Fs, s: Slot)
    requires GoodSlot(s)
  {
    Resolve(fs, s) in fs.owner && fs.owner[Resolve(fs, s)] == s
  }

  // ----- the inodes on the disk

  /** Inode i as block image d has it. */
  function DinodeIn(l: Layout, d: seq<Block>, i: nat): (ip: Inode)
    ensures |ip.addrs| == NDIRECT + 1
  {
    DinodeAt(if InodeBlock(l, i) < |d| then d[InodeBlock(l, i)] else ZeroBlock(), i % IPB)
  }

  function Dinode(fs: Fs, i: nat): (ip: Inode)
  {
    DinodeIn(fs.lay, fs.blocks, i)
  }

  ghost predicate SameDinodes(fs: Fs, r: Fs)
  {
    forall i: nat {:trigger Dinode(r, i)} :: i < fs.lay.ninodes ==> Dinode(r, i) == Dinode(fs, i)
  }

  /** The inodes in use on the disk are those in memory, and what iupdate last wrote of each is what it is now. */
  ghost predicate Synced(fs: Fs)
  {
    forall i: nat :: i < fs.lay.ninodes ==> SyncedAt(fs, i)
  }

  ghost predicate SyncedAt(fs: Fs, i: nat)
  {
    (i in fs.inodes <==> InUse(Dinode(fs, i))) && (i in fs.inodes ==> fs.inodes[i] == Dinode(fs, i))
  }

  lemma SyncedSame(fs: Fs, r: Fs)
    requires Synced(fs) && r.lay == fs.lay && r.blocks == fs.blocks && r.inodes == fs.inodes
    ensures Synced(r)
  {
    forall i: nat | i < r.lay.ninodes ensures SyncedAt(r, i) {
      assert SyncedAt(fs, i);
    }
  }

  /** Only addresses differ. */
  predicate SameButAddrs(a: Inode, b: Inode) { a == b.(addrs := a.addrs) }

  // ----- how a step keeps the invariant

  ghost predicate SameSlots(fs: Fs, r: Fs)
  {
    forall s: Slot {:trigger Resolve(r, s)} :: GoodSlot(s) ==> Resolve(r, s) == Resolve(fs, s)
  }

  ghost predicate SameSlotsBut(fs: Fs, r: Fs, x: Slot)
  {
    forall s: Slot {:trigger Resolve(r, s)} :: GoodSlot(s) && s != x ==> Resolve(r, s) == Resolve(fs, s)
  }

  ghost predicate UsedBut(fs: Fs, r: Fs, b: nat, on: bool)
    requires Shape(fs) && Shape(r) && r.lay == fs.lay
  {
    forall x :: 0 <= x < fs.lay.size ==> Used(r, x) == if x == b then on else Used(fs, x)
  }

  ghost predicate SameUsed(fs: Fs, r: Fs)
    requires Shape(fs) && Shape(r) && r.lay == fs.lay
  {
    forall x :: 0 <= x < fs.lay.size ==> Used(r, x) == Used(fs, x)
  }

  lemma InvSame(fs: Fs, r: Fs)
    requires Inv(fs) && Shape(r) && r.lay == fs.lay && r.owner == fs.owner
    requires SameSlots(fs, r) && SameUsed(fs, r)
    ensures Inv(r)
  {
    forall b | b in r.owner ensures OwnerOk(r, b) {
      assert OwnerOk(fs, b);
    }
    forall s: Slot {:trigger Resolve(r, s)} | GoodSlot(s) && Resolve(r, s) != 0 ensures SlotOk(r, s) {
      assert SlotOk(fs, s);
    }
  }

  /** A free block is taken: it becomes loose. */
  lemma InvTake(fs: Fs, r: Fs, b: nat)
    requires Inv(fs) && Shape(r) && r.lay == fs.lay && b < fs.lay.size && b !in fs.owner
    requires r.owner == fs.owner[b := Loose] && SameSlots(fs, r) && UsedBut(fs, r, b, true)
    ensures Inv(r)
  {
    forall x | x in r.owner ensures OwnerOk(r, x) {
      assert x != b ==> OwnerOk(fs, x);
    }
    forall s: Slot {:trigger Resolve(r, s)} | GoodSlot(s) && Resolve(r, s) != 0 ensures SlotOk(r, s) {
      assert SlotOk(fs, s);
    }
  }

  /** A loose block is stored in an empty slot. */
  lemma InvAttach(fs: Fs, r: Fs, b: nat, x: Slot)
    requires Inv(fs) && Shape(r) && r.lay == fs.lay && b in fs.owner && fs.owner[b] == Loose && b != 0
    requires GoodSlot(x) && Resolve(fs, x) == 0 && Resolve(r, x) == b && SameSlotsBut(fs, r, x)
    requires r.owner == fs.owner[b := x] && SameUsed(fs, r)
    ensures Inv(r)
  {
    assert OwnerOk(fs, b);
    forall y | y in r.owner ensures OwnerOk(r, y) {
      assert OwnerOk(fs, y);
    }
    forall s: Slot {:trigger Resolve(r, s)} | GoodSlot(s) && Resolve(r, s) != 0 ensures SlotOk(r, s) {
      assert s != x ==> SlotOk(fs, s);
    }
  }

  /** The block stored in slot x is freed and the slot emptied. */
  lemma InvFree(fs: Fs, r: Fs, b: nat, x: Slot)
    requires Inv(fs) && Shape(r) && r.lay == fs.lay
    requires GoodSlot(x) && Resolve(fs, x) == b != 0 && Resolve(r, x) == 0 && SameSlotsBut(fs, r, x)
    requires r.owner == fs.owner - {b} && UsedBut(fs, r, b, false)
    ensures Inv(r)
  {
    assert SlotOk(fs, x);
    assert OwnerOk(fs, b);
    forall y | y in r.owner ensures OwnerOk(r, y) {
      assert OwnerOk(fs, y);
    }
    forall s: Slot {:trigger Resolve(r, s)} | GoodSlot(s) && Resolve(r, s) != 0 ensures SlotOk(r, s) {
      assert s != x ==> SlotOk(fs, s);
    }
  }

  // ----- block writes

  /** log_write of block b with contents d. */
  function PutBlock(fs: Fs, b: nat, d: Block): (r: Fs)
    requires b < |fs.blocks|
  {
    fs.(blocks := fs.blocks[b := d], log := fs.log + [b])
  }

  /** The discipline the log relies on: since fs0 no block has changed that has not been logged. */
  ghost predicate Logged(fs0: Fs, fs: Fs)
  {
    && |fs0.log| <= |fs.log| && fs.log[..|fs0.log|] == fs0.log && |fs.blocks| == |fs0.blocks|
    && forall b :: 0 <= b < |fs.blocks| && fs.blocks[b] != fs0.blocks[b] ==> b in fs.log[|fs0.log|..]
  }

  lemma LoggedTrans(a: Fs, b: Fs, c: Fs)
    requires Logged(a, b) && Logged(b, c)
    ensures Logged(a, c)
  {
    var n, m := |a.log|, |b.log|;
    assert c.log[..n] == c.log[..m][..n];
    assert c.log[n..] == c.log[..m][n..] + c.log[m..];
  }

  lemma PutLogged(fs: Fs, b: nat, d: Block)
    requires b < |fs.blocks|
    ensures Logged(fs, PutBlock(fs, b, d))
  {
    var r := PutBlock(fs, b, d);
    assert r.log[..|fs.log|] == fs.log && r.log[|fs.log|..] == [b];
  }

  /** Changes of other fields do not matter. */
  lemma LoggedSame(a: Fs, b: Fs, c: Fs)
    requires Logged(a, b) && c.blocks == b.blocks && c.log == b.log
    ensures Logged(a, c)
  {
  }

  /** The free map updated for block b, and its map block logged. */
  function Mark(fs: Fs, b: nat, on: bool): (r: Fs)
    requires MapBlock(fs.lay, b) < |fs.blocks|
  {
    var m := MapBlock(fs.lay, b);
    PutBlock(fs, m, SetBitAt(fs.blocks[m], b % BPB, on))
  }

  /** A block is the indirect block of an inode only if it owns it as such. */
  lemma RootOwned(fs: Fs, i: nat)
    requires Inv(fs) && Root(fs, i) != 0
    ensures Root(fs, i) in fs.owner && fs.owner[Root(fs, i)] == Direct(i, NDIRECT)
    ensures fs.lay.nmeta <= Root(fs, i) < |fs.blocks|
  {
    assert Resolve(fs, Direct(i, NDIRECT)) == Root(fs, i);
    assert SlotOk(fs, Direct(i, NDIRECT));
    assert OwnerOk(fs, Root(fs, i));
  }

  /** Writing a block that is no indirect block moves no slot. */
  lemma WriteNonRoot(fs: Fs, b: nat, d: Block)
    requires Inv(fs) && b < |fs.blocks|
    requires b in fs.owner ==> !(fs.owner[b].Direct? && fs.owner[b].k == NDIRECT)
    ensures SameSlots(fs, PutBlock(fs, b, d))
  {
    var r := PutBlock(fs, b, d);
    forall s: Slot {:trigger Resolve(r, s)} | GoodSlot(s) ensures Resolve(r, s) == Resolve(fs, s) {
      if s.Entry? && Root(fs, s.ino) != 0 {
        RootOwned(fs, s.ino);
      }
    }
  }

  /** Writing a block of the free map, or any block past the metadata, changes no inode on the disk. */
  lemma WriteNonInode(fs: Fs, b: nat, d: Block)
    requires Shape(fs) && fs.lay.bmapstart <= b < |fs.blocks|
    ensures SameDinodes(fs, PutBlock(fs, b, d))
  {
    forall i: nat {:trigger Dinode(PutBlock(fs, b, d), i)} | i < fs.lay.ninodes
      ensures Dinode(PutBlock(fs, b, d), i) == Dinode(fs, i)
    {
      assert InodeBlock(fs.lay, i) < fs.lay.bmapstart;
    }
  }

  lemma WriteNonMap(fs: Fs, b: nat, d: Block)
    requires Shape(fs) && fs.lay.nmeta <= b < |fs.blocks|
    ensures SameUsed(fs, PutBlock(fs, b, d))
  {
    forall x | 0 <= x < fs.lay.size ensures Used(PutBlock(fs, b, d), x) == Used(fs, x) {
      assert MapBlock(fs.lay, x) < fs.lay.nmeta;
    }
  }

  lemma MapBelowMeta(l: Layout)
    requires GoodLayout(l)
    ensures l.bmapstart < l.nmeta
  {
    assert MapBlock(l, 0) < l.nmeta;
  }

  /** What is on the disk does not depend on the rest of the state. */
  lemma SameDinodesOwner(fs: Fs, r: Fs, g: Fs)
    requires SameDinodes(fs, r) && g.blocks == r.blocks && g.lay == r.lay
    ensures SameDinodes(fs, g)
  {
    forall i: nat {:trigger Dinode(g, i)} | i < fs.lay.ninodes ensures Dinode(g, i) == Dinode(fs, i) {
      assert Dinode(g, i) == Dinode(r, i);
    }
  }

  lemma SameDinodesTrans(a: Fs, b: Fs, c: Fs)
    requires SameDinodes(a, b) && SameDinodes(b, c) && b.lay == a.lay
    ensures SameDinodes(a, c)
  {
    hide Dinode;
    forall i: nat {:trigger Dinode(c, i)} | i < a.lay.ninodes ensures Dinode(c, i) == Dinode(a, i) {
      assert Dinode(b, i) == Dinode(a, i);
    }
  }

  /** A block's bit is its own. */
  lemma MapPosition(x: nat, b: nat)
    ensures x / BPB == b / BPB && x % BPB == b % BPB ==> x == b
  {
  }

  lemma MarkUsed(fs: Fs, b: nat, on: bool)
    requires Shape(fs) && b < fs.lay.size
    ensures MapBlock(fs.lay, b) < fs.lay.nmeta && UsedBut(fs, Mark(fs, b, on), b, on)
  {
    assert MapBlock(fs.lay, b) < fs.lay.nmeta;
    var r := Mark(fs, b, on);
    forall x | 0 <= x < fs.lay.size ensures Used(r, x) == if x == b then on else Used(fs, x) {
      hide BitAt;
      MapPosition(x, b);
    }
  }

  lemma MarkSlots(fs: Fs, b: nat, on: bool)
    requires Inv(fs) && b < fs.lay.size
    ensures MapBlock(fs.lay, b) < fs.lay.nmeta && SameSlots(fs, Mark(fs, b, on))
  {
    var m := MapBlock(fs.lay, b);
    assert m in fs.owner && OwnerOk(fs, m);
    WriteNonRoot(fs, m, SetBitAt(fs.blocks[m], b % BPB, on));
  }

  // ----- files

  function DataSlot(i: nat, bn: nat): (s: Slot)
    requires bn < MAXFILE
    ensures GoodSlot(s)
  {
    if bn < NDIRECT then Direct(i, bn) else Entry(i, bn - NDIRECT)
  }

  /** The address of block bn of inode i, 0 if it has none. */
  function Addr(fs: Fs, i: nat, bn: nat): (b: nat)
    requires bn < MAXFILE
  {
    Resolve(fs, DataSlot(i, bn))
  }

  lemma AddrOwned(fs: Fs, i: nat, bn: nat)
    requires Inv(fs) && bn < MAXFILE && Addr(fs, i, bn) != 0
    ensures Addr(fs, i, bn) in fs.owner && fs.owner[Addr(fs, i, bn)] == DataSlot(i, bn)
    ensures fs.lay.nmeta <= Addr(fs, i, bn) < |fs.blocks|
  {
    assert SlotOk(fs, DataSlot(i, bn));
    assert OwnerOk(fs, Addr(fs, i, bn));
  }

  lemma SameDataHere(fs: Fs, r: Fs, i: nat, bn: nat)
    requires bn < MAXFILE && |r.blocks| == |fs.blocks| && Addr(fs, i, bn) < |fs.blocks|
    requires Resolve(r, DataSlot(i, bn)) == Resolve(fs, DataSlot(i, bn))
    requires r.blocks[Addr(fs, i, bn)] == fs.blocks[Addr(fs, i, bn)]
    ensures SameData(fs, r, i, bn)
  {
    hide Resolve;
  }

  /** Block bn of inode i holds the same data in both states. */
  ghost predicate SameData(fs: Fs, r: Fs, i: nat, bn: nat)
    requires bn < MAXFILE
  {
    && Addr(r, i, bn) == Addr(fs, i, bn) < |fs.blocks|
    && |r.blocks| == |fs.blocks|
    && r.blocks[Addr(r, i, bn)] == fs.blocks[Addr(fs, i, bn)]
  }

  /** Every allocated file block but block bn of inode i keeps its place and its data; sizes and other inodes stay,
      and nothing is written to the inodes on the disk. */
  ghost predicate Kept(fs: Fs, r: Fs, i: nat, bn: nat)
  {
    && r.lay == fs.lay && r.inodes.Keys == fs.inodes.Keys && SameDinodes(fs, r)
    && (forall x :: x in fs.inodes ==>
          SameButAddrs(r.inodes[x], fs.inodes[x]) && (x != i ==> r.inodes[x] == fs.inodes[x]))
    && (forall x: nat, y: nat {:trigger SameData(fs, r, x, y)} ::
          y < MAXFILE && (x != i || y != bn) && Addr(fs, x, y) != 0 ==> SameData(fs, r, x, y))
    && (forall x: nat, y: nat {:trigger Addr(r, x, y)} :: y < MAXFILE && (x != i || y != bn) && Addr(fs, x, y) == 0 ==>
          Addr(r, x, y) == 0)
  }

  /** Pass as `bn` when no file block is excepted. */
  const NONE := MAXFILE

  lemma KeptTrans(a: Fs, b: Fs, c: Fs, i: nat, bn: nat)
    requires Kept(a, b, i, bn) && Kept(b, c, i, bn)
    ensures Kept(a, c, i, bn)
  {
    forall x: nat, y: nat {:trigger SameData(a, c, x, y)} | y < MAXFILE && (x != i || y != bn) && Addr(a, x, y) != 0
      ensures SameData(a, c, x, y)
    {
      assert SameData(a, b, x, y) && SameData(b, c, x, y);
    }
  }

  /** Writing a block that holds no data but that of block bn of inode i keeps all other data. */
  lemma KeptByWrite(fs: Fs, b: nat, d: Block, i: nat, bn: nat)
    requires Inv(fs) && fs.lay.bmapstart <= b < |fs.blocks| && SameSlots(fs, PutBlock(fs, b, d))
    requires b in fs.owner ==>
               fs.owner[b].Meta? || fs.owner[b].Loose? || (bn < MAXFILE && fs.owner[b] == DataSlot(i, bn))
                               || (fs.owner[b].Direct? && fs.owner[b].k == NDIRECT)
    ensures Kept(fs, PutBlock(fs, b, d), i, bn)
  {
    var r := PutBlock(fs, b, d);
    WriteNonInode(fs, b, d);
    forall x: nat, y: nat {:trigger SameData(fs, r, x, y)} | y < MAXFILE && (x != i || y != bn) && Addr(fs, x, y) != 0
      ensures SameData(fs, r, x, y)
    {
      AddrOwned(fs, x, y);
    }
  }

  // ----- iupdate

  ghost predicate CanUpdate(fs: Fs, i: nat)
  {
    i in fs.inodes && |fs.inodes[i].addrs| == NDIRECT + 1 && InodeBlock(fs.lay, i) < |fs.blocks|
  }

  /** iupdate: the inode copied to its place on the disk. */
  function Iupdate(fs: Fs, i: nat): (r: Fs)
    requires CanUpdate(fs, i)
  {
    var b := InodeBlock(fs.lay, i);
    PutBlock(fs, b, PutDinode(fs.blocks[b], i % IPB, fs.inodes[i]))
  }

  /** ip->size = n; iupdate(ip) */
  function SetSize(fs: Fs, i: nat, n: Word): (r: Fs)
    requires CanUpdate(fs, i)
  {
    Iupdate(fs.(inodes := fs.inodes[i := fs.inodes[i].(size := n)]), i)
  }

  lemma InodePosition(x: nat, i: nat)
    ensures x / IPB == i / IPB && x % IPB == i % IPB ==> x == i
  {
  }

  lemma ShapeUpdates(fs: Fs, i: nat)
    requires Shape(fs) && i in fs.inodes
    ensures CanUpdate(fs, i) && 0 < InodeBlock(fs.lay, i) < fs.lay.bmapstart < fs.lay.nmeta <= |fs.blocks|
  {
    MapBelowMeta(fs.lay);
    assert InodeBlock(fs.lay, i) < fs.lay.bmapstart;
  }

  /** What the iupdate writes is that inode and no other. */
  lemma SetSizeDinode(fs: Fs, i: nat, n: Word, x: nat)
    requires Shape(fs) && CanUpdate(fs, i) && x < fs.lay.ninodes
    ensures var r := SetSize(fs, i, n); Dinode(r, x) == if x == i then r.inodes[i] else Dinode(fs, x)
  {
    var b := InodeBlock(fs.lay, i);
    InodePosition(x, i);
    DinodeOfPut(fs.blocks[b], i % IPB, fs.inodes[i].(size := n), x % IPB);
  }

  lemma SetSizeSlots(fs: Fs, i: nat, n: Word)
    requires Inv(fs) && CanUpdate(fs, i)
    ensures SameSlots(fs, SetSize(fs, i, n))
  {
    ShapeUpdates(fs, i);
    var b, r := InodeBlock(fs.lay, i), SetSize(fs, i, n);
    assert b in fs.owner && OwnerOk(fs, b);
    forall s: Slot {:trigger Resolve(r, s)} | GoodSlot(s) ensures Resolve(r, s) == Resolve(fs, s) {
      if s.Entry? && Root(fs, s.ino) != 0 {
        RootOwned(fs, s.ino);
      }
    }
  }

  /** Inodes lie apart from the free map and from the blocks of files. */
  lemma SetSizeBlocks(fs: Fs, i: nat, n: Word, y: nat)
    requires Shape(fs) && CanUpdate(fs, i) && y < |fs.blocks| && (y == 0 || fs.lay.bmapstart <= y)
    ensures SetSize(fs, i, n).blocks[y] == fs.blocks[y]
  {
    hide PutDinode;
    ShapeUpdates(fs, i);
  }

  lemma SetSizeUsed(fs: Fs, i: nat, n: Word)
    requires Shape(fs) && CanUpdate(fs, i)
    ensures Shape(SetSize(fs, i, n)) && SameUsed(fs, SetSize(fs, i, n))
  {
    hide PutDinode, BitAt;
    var r := SetSize(fs, i, n);
    assert Shape(r);
    forall x | 0 <= x < fs.lay.size ensures Used(r, x) == Used(fs, x) {
      assert MapBlock(fs.lay, x) < fs.lay.nmeta;
      SetSizeBlocks(fs, i, n, MapBlock(fs.lay, x));
    }
  }

  /** Ownership does not depend on sizes. */
  lemma SetSizeInv(fs: Fs, i: nat, n: Word)
    requires Inv(fs) && CanUpdate(fs, i)
    ensures Inv(SetSize(fs, i, n)) && SameSlots(fs, SetSize(fs, i, n))
  {
    SetSizeSlots(fs, i, n);
    SetSizeUsed(fs, i, n);
    hide Inv, PutDinode, SameSlots, SameUsed;
    InvSame(fs, SetSize(fs, i, n));
  }

  lemma SetSizeLogged(fs0: Fs, fs: Fs, i: nat, n: Word)
    requires Logged(fs0, fs) && CanUpdate(fs, i)
    ensures Logged(fs0, SetSize(fs, i, n)) && SetSize(fs, i, n).log == fs.log + [InodeBlock(fs.lay, i)]
  {
    var b, m := InodeBlock(fs.lay, i), fs.(inodes := fs.inodes[i := fs.inodes[i].(size := n)]);
    hide Logged, PutDinode;
    LoggedSame(fs0, fs, m);
    PutLogged(m, b, PutDinode(m.blocks[b], i % IPB, m.inodes[i]));
    LoggedTrans(fs0, m, SetSize(fs, i, n));
  }

  // ----- balloc

  /** Block b marked in use. */
  function MarkLoose(fs: Fs, b: nat): (r: Fs)
    requires MapBlock(fs.lay, b) < |fs.blocks|
  {
    var k := Mark(fs, b, true);
    k.(owner := fs.owner[b := Loose])
  }

  /** Block b marked in use and zeroed. */
  function Take(fs: Fs, b: nat): (r: Fs)
    requires b < |fs.blocks| && MapBlock(fs.lay, b) < |fs.blocks|
  {
    PutBlock(MarkLoose(fs, b), b, ZeroBlock())
  }

  lemma TakeLogged(fs: Fs, b: nat)
    requires b < |fs.blocks| && MapBlock(fs.lay, b) < |fs.blocks|
    ensures Logged(fs, Take(fs, b))
  {
    hide Logged;
    var m, k := MapBlock(fs.lay, b), Mark(fs, b, true);
    PutLogged(fs, m, SetBitAt(fs.blocks[m], b % BPB, true));
    var n := MarkLoose(fs, b);
    LoggedSame(fs, k, n);
    PutLogged(n, b, ZeroBlock());
    LoggedTrans(fs, n, Take(fs, b));
  }

  /** Writing a loose block, or the data of block bn of inode i, keeps everything else. */
  lemma WriteKeeps(fs: Fs, b: nat, d: Block, i: nat, bn: nat)
    requires Inv(fs) && b in fs.owner
    requires fs.owner[b].Loose? || (bn < MAXFILE && fs.owner[b] == DataSlot(i, bn))
    ensures fs.lay.nmeta <= b < |fs.blocks| && Inv(PutBlock(fs, b, d)) && SameSlots(fs, PutBlock(fs, b, d))
    ensures Kept(fs, PutBlock(fs, b, d), i, bn)
  {
    assert OwnerOk(fs, b);
    MapBelowMeta(fs.lay);
    WriteNonRoot(fs, b, d);
    WriteNonMap(fs, b, d);
    InvSame(fs, PutBlock(fs, b, d));
    KeptByWrite(fs, b, d, i, bn);
  }

  /** Marking a free block in use makes it loose. */
  lemma MarkTakes(fs: Fs, b: nat, i: nat, m: Fs)
    requires Inv(fs) && b < fs.lay.size && b !in fs.owner && MapBlock(fs.lay, b) < |fs.blocks|
    requires m == MarkLoose(fs, b)
    ensures Inv(m) && SameSlots(fs, m) && Kept(fs, m, i, NONE)
  {
    hide SetBitAt, SameSlots, Kept, Inv, UsedBut, Shape;
    InvShape(fs);
    var k := Mark(fs, b, true);
    MarkUsed(fs, b, true);
    MarkSlots(fs, b, true);
    MarkKept(fs, b, i);
    LooseOwner(fs, k, m);
    MarkShape(fs, b);
    InvTake(fs, m, b);
    KeptOwner(fs, k, m, i);
  }

  lemma MarkKept(fs: Fs, b: nat, i: nat)
    requires Inv(fs) && b < fs.lay.size && MapBlock(fs.lay, b) < |fs.blocks| && SameSlots(fs, Mark(fs, b, true))
    ensures Kept(fs, Mark(fs, b, true), i, NONE)
  {
    hide SetBitAt, Kept, SameSlots, Inv, Shape;
    var mb := MapBlock(fs.lay, b);
    MapOwner(fs, b);
    KeptByWrite(fs, mb, SetBitAt(fs.blocks[mb], b % BPB, true), i, NONE);
  }

  lemma MapOwner(fs: Fs, b: nat)
    requires Inv(fs) && b < fs.lay.size
    ensures var m := MapBlock(fs.lay, b); fs.lay.bmapstart <= m < fs.lay.nmeta && m in fs.owner && fs.owner[m].Meta?
  {
    assert MapBlock(fs.lay, b) < fs.lay.nmeta && OwnerOk(fs, MapBlock(fs.lay, b));
  }

  lemma MarkShape(fs: Fs, b: nat)
    requires Shape(fs) && b < fs.lay.size && MapBlock(fs.lay, b) < |fs.blocks|
    requires UsedBut(fs, Mark(fs, b, true), b, true)
    ensures Shape(MarkLoose(fs, b)) && UsedBut(fs, MarkLoose(fs, b), b, true)
  {
    hide SetBitAt, BitAt;
    forall x | 0 <= x < fs.lay.size ensures Used(MarkLoose(fs, b), x) == if x == b then true else Used(fs, x) {
      assert Used(Mark(fs, b, true), x) == if x == b then true else Used(fs, x);
    }
  }

  lemma TakeFacts(fs: Fs, b: nat)
    requires b < |fs.blocks| && MapBlock(fs.lay, b) < |fs.blocks| && MapBlock(fs.lay, b) != b
    ensures var r := Take(fs, b);
            && r.log == fs.log + [MapBlock(fs.lay, b), b] && r.blocks[b] == ZeroBlock()
            && r.owner == fs.owner[b := Loose] && |r.blocks| == |fs.blocks|
            && r.lay == fs.lay && r.inodes == fs.inodes && r.cut == fs.cut
  {
  }

  lemma SlotsTrans(a: Fs, b: Fs, c: Fs)
    requires SameSlots(a, b) && SameSlots(b, c)
    ensures SameSlots(a, c)
  {
    forall s: Slot {:trigger Resolve(c, s)} | GoodSlot(s) ensures Resolve(c, s) == Resolve(a, s) {
      assert Resolve(b, s) == Resolve(a, s);
    }
  }

  lemma TakeInv(fs: Fs, b: nat, i: nat)
    requires Inv(fs) && b < fs.lay.size && b !in fs.owner
    ensures MapBlock(fs.lay, b) < fs.lay.nmeta <= b && Inv(Take(fs, b)) && SameSlots(fs, Take(fs, b))
    ensures Kept(fs, Take(fs, b), i, NONE)
  {
    assert MapBlock(fs.lay, b) < fs.lay.nmeta <= b && fs.lay.size == |fs.blocks|;
    var m, r := MarkLoose(fs, b), Take(fs, b);
    hide Inv, Kept, SameSlots, SetBitAt;
    MarkTakes(fs, b, i, m);
    WriteKeeps(m, b, ZeroBlock(), i, NONE);
    KeptTrans(fs, m, r, i, NONE);
    SlotsTrans(fs, m, r);
  }

  /** Slots do not depend on the owner map. */
  lemma LooseOwner(fs: Fs, k: Fs, m: Fs)
    requires m == k.(owner := m.owner) && SameSlots(fs, k)
    ensures SameSlots(fs, m)
  {
    forall s: Slot {:trigger Resolve(m, s)} | GoodSlot(s) ensures Resolve(m, s) == Resolve(fs, s) {
      assert Resolve(k, s) == Resolve(fs, s);
    }
  }

  lemma KeptOwner(fs: Fs, k: Fs, m: Fs, i: nat)
    requires m == k.(owner := m.owner) && Kept(fs, k, i, NONE)
    ensures Kept(fs, m, i, NONE)
  {
    forall x: nat, y: nat {:trigger SameData(fs, m, x, y)} | y < MAXFILE && Addr(fs, x, y) != 0
      ensures SameData(fs, m, x, y)
    {
      assert SameData(fs, k, x, y);
      assert Addr(m, x, y) == Addr(k, x, y);
    }
    SameDinodesOwner(fs, k, m);
    forall x: nat, y: nat {:trigger Addr(m, x, y)} | y < MAXFILE && Addr(fs, x, y) == 0 ensures Addr(m, x, y) == 0 {
      assert Addr(k, x, y) == 0;
    }
  }

  // ----- bmap

  /** Loose block b stored in ip->addrs[k]. */
  function AttachDirect(fs: Fs, i: nat, k: nat, b: Word): (r: Fs)
    requires i in fs.inodes && k < |fs.inodes[i].addrs|
  {
    fs.(inodes := fs.inodes[i := fs.inodes[i].(addrs := fs.inodes[i].addrs[k := b])],
          owner := fs.owner[b := Direct(i, k)])
  }

  lemma AttachDirectSlots(fs: Fs, i: nat, k: nat, b: Word, s: Slot)
    requires Shape(fs) && i in fs.inodes && k <= NDIRECT && fs.inodes[i].addrs[k] == 0
    requires 0 < b < |fs.blocks| && fs.blocks[b] == ZeroBlock() && GoodSlot(s)
    ensures Resolve(AttachDirect(fs, i, k, b), s) == if s == Direct(i, k) then b else Resolve(fs, s)
  {
    if s.Entry? && s.ino == i && k == NDIRECT {
      WordOfZero(s.j);
    }
  }

  lemma AttachDirectInv(fs: Fs, i: nat, k: nat, b: Word)
    requires Inv(fs) && i in fs.inodes && k <= NDIRECT && fs.inodes[i].addrs[k] == 0
    requires b in fs.owner && fs.owner[b] == Loose && b < |fs.blocks| && fs.blocks[b] == ZeroBlock()
    ensures Inv(AttachDirect(fs, i, k, b))
    ensures Kept(fs, AttachDirect(fs, i, k, b), i, if k < NDIRECT then k else NONE)
  {
    hide Inv, Kept, Resolve, Addr;
    AttachDirectOwned(fs, i, k, b);
    AttachDirectKept(fs, i, k, b);
  }

  lemma AttachDirectOwned(fs: Fs, i: nat, k: nat, b: Word)
    requires Inv(fs) && i in fs.inodes && k <= NDIRECT && fs.inodes[i].addrs[k] == 0
    requires b in fs.owner && fs.owner[b] == Loose && b < |fs.blocks| && fs.blocks[b] == ZeroBlock()
    ensures Inv(AttachDirect(fs, i, k, b))
  {
    var r, x := AttachDirect(fs, i, k, b), Direct(i, k);
    assert OwnerOk(fs, b) && Shape(r);
    forall s: Slot {:trigger Resolve(r, s)} | GoodSlot(s)
      ensures Resolve(r, s) == if s == x then b else Resolve(fs, s)
    {
      AttachDirectSlots(fs, i, k, b, s);
    }
    assert Resolve(fs, x) == 0;
    hide Resolve, Inv, BitAt;
    InvAttach(fs, r, b, x);
  }

  lemma AttachDirectKept(fs: Fs, i: nat, k: nat, b: Word)
    requires Inv(fs) && i in fs.inodes && k <= NDIRECT && fs.inodes[i].addrs[k] == 0
    requires b in fs.owner && fs.owner[b] == Loose && b < |fs.blocks| && fs.blocks[b] == ZeroBlock()
    ensures Kept(fs, AttachDirect(fs, i, k, b), i, if k < NDIRECT then k else NONE)
  {
    hide Inv, Resolve;
    InvShape(fs);
    NotZero(fs, b);
    var r := AttachDirect(fs, i, k, b);
    forall s: Slot {:trigger Resolve(r, s)} | GoodSlot(s)
      ensures Resolve(r, s) == if s == Direct(i, k) then b else Resolve(fs, s)
    {
      AttachDirectSlots(fs, i, k, b, s);
    }
    forall x: nat, y: nat {:trigger SameData(fs, r, x, y)} | y < MAXFILE && Addr(fs, x, y) != 0 &&
          DataSlot(x, y) != Direct(i, k)
      ensures SameData(fs, r, x, y)
    {
      AddrOwned(fs, x, y);
    }
  }

  lemma NotZero(fs: Fs, b: nat)
    requires Inv(fs) && b in fs.owner && fs.owner[b] == Loose
    ensures b > 0
  {
    assert OwnerOk(fs, b);
  }

  /** Loose block b stored in entry j of inode i's indirect block. */
  function AttachEntry(fs: Fs, i: nat, j: nat, b: Word): (r: Fs)
    requires j < NINDIRECT && Root(fs, i) < |fs.blocks|
  {
    var p := PutBlock(fs, Root(fs, i), SetWord(fs.blocks[Root(fs, i)], j, b));
    p.(owner := fs.owner[b := Entry(i, j)])
  }

  lemma AttachEntryFacts(fs: Fs, i: nat, j: nat, b: Word)
    requires j < NINDIRECT && Root(fs, i) < |fs.blocks| && b < |fs.blocks| && b != Root(fs, i)
    ensures var r := AttachEntry(fs, i, j, b);
            && r.log == fs.log + [Root(fs, i)] && r.blocks[b] == fs.blocks[b] && |r.blocks| == |fs.blocks|
            && r.owner == fs.owner[b := Entry(i, j)] && Root(r, i) == Root(fs, i) && r.cut == fs.cut
            && r.inodes == fs.inodes
  {
  }

  lemma AttachEntrySlots(fs: Fs, i: nat, j: nat, b: Word, s: Slot)
    requires Inv(fs) && j < NINDIRECT && 0 < Root(fs, i) < |fs.blocks| && GoodSlot(s) && s != Entry(i, j)
    ensures Resolve(AttachEntry(fs, i, j, b), s) == Resolve(fs, s)
  {
    if s.Entry? && Root(fs, s.ino) != 0 {
      RootOwned(fs, i);
      RootOwned(fs, s.ino);
      WordOfSetWord(fs.blocks[Root(fs, i)], j, b, s.j);
    }
  }

  lemma AttachEntryInv(fs: Fs, i: nat, j: nat, b: Word)
    requires Inv(fs) && j < NINDIRECT && Root(fs, i) != 0 && i !in fs.cut && Resolve(fs, Entry(i, j)) == 0
    requires b in fs.owner && fs.owner[b] == Loose
    ensures Root(fs, i) < |fs.blocks| && Inv(AttachEntry(fs, i, j, b))
    ensures Resolve(AttachEntry(fs, i, j, b), Entry(i, j)) == b
  {
    RootOwned(fs, i);
    var r := AttachEntry(fs, i, j, b);
    var root := Root(fs, i);
    assert OwnerOk(fs, b);
    WordOfSetWord(fs.blocks[root], j, b, j);
    forall s: Slot {:trigger Resolve(r, s)} | GoodSlot(s) && s != Entry(i, j) ensures Resolve(r, s) == Resolve(fs, s) {
      AttachEntrySlots(fs, i, j, b, s);
    }
    WriteNonMap(fs, root, SetWord(fs.blocks[root], j, b));
    InvAttach(fs, r, b, Entry(i, j));
  }

  lemma AttachEntryKept(fs: Fs, i: nat, j: nat, b: Word)
    requires Inv(fs) && j < NINDIRECT && 0 < Root(fs, i) < |fs.blocks|
    ensures Kept(fs, AttachEntry(fs, i, j, b), i, NDIRECT + j)
  {
    var r := AttachEntry(fs, i, j, b);
    RootOwned(fs, i);
    MapBelowMeta(fs.lay);
    WriteNonInode(fs, Root(fs, i), SetWord(fs.blocks[Root(fs, i)], j, b));
    SameDinodesOwner(fs, PutBlock(fs, Root(fs, i), SetWord(fs.blocks[Root(fs, i)], j, b)), r);
    forall x: nat, y: nat {:trigger SameData(fs, r, x, y)} | y < MAXFILE && (x != i || y != NDIRECT + j) &&
          Addr(fs, x, y) != 0
      ensures SameData(fs, r, x, y)
    {
      AttachEntrySlots(fs, i, j, b, DataSlot(x, y));
      AddrOwned(fs, x, y);
    }
    forall x: nat, y: nat {:trigger Addr(r, x, y)} | y < MAXFILE && (x != i || y != NDIRECT + j) && Addr(fs, x, y) == 0
      ensures Addr(r, x, y) == 0
    {
      AttachEntrySlots(fs, i, j, b, DataSlot(x, y));
    }
  }
}
