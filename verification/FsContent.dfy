/** A file's contents as a flat byte sequence, and how the block writes of writei change it. */
module FsContent {
  import opened Blocks
  import opened Naturals
  import opened FsState

  const MAXBYTES := MAXFILE * BSIZE

  /** Every block that holds one of the first n bytes of inode i is allocated. */
  ghost predicate Backed(fs: Fs, i: nat, n: nat)
  {
    n <= MAXBYTES && forall bn: nat {:trigger Addr(fs, i, bn)} :: bn < MAXFILE && bn * BSIZE < n ==>
          0 < Addr(fs, i, bn) < |fs.blocks|
  }

  lemma BlockOf(k: nat, n: nat)
    requires k < n <= MAXBYTES
    ensures k / BSIZE < MAXFILE && k / BSIZE * BSIZE <= k < n && k == k / BSIZE * BSIZE + k % BSIZE
  {
  }

  /** Byte k of the file. */
  ghost function FileByte(fs: Fs, i: nat, k: nat): (b: Byte)
    requires k < MAXBYTES
  {
    var a := Addr(fs, i, k / BSIZE);
    if a < |fs.blocks| then fs.blocks[a][k % BSIZE] else 0
  }

  ghost function Content(fs: Fs, i: nat): (c: seq<Byte>)
    requires i in fs.inodes && fs.inodes[i].size <= MAXBYTES
    ensures |c| == fs.inodes[i].size
  {
    seq(fs.inodes[i].size, k requires 0 <= k < fs.inodes[i].size => FileByte(fs, i, k))
  }

  /** No file has a hole: every block index below ceil(size / BSIZE) is allocated. */
  ghost predicate NoHoles(fs: Fs)
  {
    forall i :: i in fs.inodes ==> Backed(fs, i, fs.inodes[i].size)
  }

  /** `c` with `s` written over it at `off`, growing at the end if need be. */
  function Splice(c: seq<Byte>, off: nat, s: seq<Byte>): (r: seq<Byte>)
    requires off <= |c|
  {
    c[..off] + s + (if off + |s| < |c| then c[off + |s|..] else [])
  }

  /** Two writes, the second where the first ended, are one. */
  lemma SpliceTwice(c: seq<Byte>, off: nat, a: seq<Byte>, b: seq<Byte>)
    requires off <= |c|
    ensures off + |a| <= |Splice(c, off, a)|
    ensures Splice(Splice(c, off, a), off + |a|, b) == Splice(c, off, a + b)
  {
    var d := Splice(c, off, a);
    assert d[..off + |a|] == c[..off] + a;
    if off + |a| + |b| < |d| {
      assert d[off + |a| + |b|..] == c[off + |a| + |b|..];
    }
  }

  lemma ByteOfBlock(fs: Fs, i: nat, pos: nat, k: nat)
    requires pos <= k < MAXBYTES && pos % BSIZE + (k - pos) < BSIZE && Addr(fs, i, pos / BSIZE) < |fs.blocks|
    ensures FileByte(fs, i, k) == fs.blocks[Addr(fs, i, pos / BSIZE)][pos % BSIZE + (k - pos)]
  {
    assert k / BSIZE == pos / BSIZE && k % BSIZE == pos % BSIZE + (k - pos);
  }

  /** A piece of a file that lies in one block is that piece of the block. */
  lemma ContentChunk(fs: Fs, i: nat, pos: nat, m: nat)
    requires i in fs.inodes && fs.inodes[i].size <= MAXBYTES && pos + m <= fs.inodes[i].size
    requires pos % BSIZE + m <= BSIZE && 0 < m
    requires Addr(fs, i, pos / BSIZE) < |fs.blocks|
    ensures fs.blocks[Addr(fs, i, pos / BSIZE)][pos % BSIZE..pos % BSIZE + m] == Content(fs, i)[pos..pos + m]
  {
    hide FileByte, Addr, Content;
    var p := pos % BSIZE;
    var a := Addr(fs, i, pos / BSIZE);
    var x, y := fs.blocks[a][p..p + m], Content(fs, i)[pos..pos + m];
    forall q | 0 <= q < m ensures x[q] == y[q] {
      ByteOfBlock(fs, i, pos, pos + q);
      ContentAt(fs, i, pos + q);
      assert x[q] == fs.blocks[a][p + q] && y[q] == Content(fs, i)[pos + q];
    }
  }

  lemma ContentAt(fs: Fs, i: nat, k: nat)
    requires i in fs.inodes && fs.inodes[i].size <= MAXBYTES && k < fs.inodes[i].size
    ensures Content(fs, i)[k] == FileByte(fs, i, k)
  {
  }

  /** Every block of every other file keeps its data, and sizes and other inodes stay. */
  ghost predicate OthersKept(fs: Fs, r: Fs, i: nat)
  {
    && r.lay == fs.lay && r.inodes.Keys == fs.inodes.Keys && SameDinodes(fs, r)
    && (forall x :: x in fs.inodes ==>
          SameButAddrs(r.inodes[x], fs.inodes[x]) && (x != i ==> r.inodes[x] == fs.inodes[x]))
    && (forall x: nat, y: nat {:trigger SameData(fs, r, x, y)} :: y < MAXFILE && x != i && Addr(fs, x, y) != 0 ==>
          SameData(fs, r, x, y))
  }

  lemma OthersTrans(a: Fs, b: Fs, c: Fs, i: nat, bn: nat)
    requires OthersKept(a, b, i) && Kept(b, c, i, bn)
    ensures OthersKept(a, c, i)
  {
    forall x: nat, y: nat {:trigger SameData(a, c, x, y)} | y < MAXFILE && x != i && Addr(a, x, y) != 0
      ensures SameData(a, c, x, y)
    {
      assert SameData(a, b, x, y);
      assert SameData(b, c, x, y);
    }
  }

  /** Inode i of fs0 after the first `tot` bytes of src were written at off. */
  ghost predicate Written(fs0: Fs, fs: Fs, i: nat, off: nat, src: seq<Byte>, tot: nat)
    requires i in fs0.inodes && tot <= |src| && off + |src| <= MAXBYTES && fs0.inodes[i].size <= MAXBYTES
  {
    var hi := Max(fs0.inodes[i].size, off + tot);
    && OthersKept(fs0, fs, i)
    && Backed(fs, i, hi)
    && forall k :: 0 <= k < hi ==>
         FileByte(fs, i, k) == if off <= k < off + tot then src[k - off] else FileByte(fs0, i, k)
  }

  /** The bytes a block holds after s is copied into it at p. */
  function Patch(b: Block, p: nat, s: seq<Byte>): (r: Block)
    requires p + |s| <= BSIZE
    ensures forall q :: 0 <= q < BSIZE ==> r[q] == if p <= q < p + |s| then s[q - p] else b[q]
  {
    b[..p] + s + b[p + |s|..]
  }

  /** One turn of the loop in writei: bmap took fs to fs1 and the copy into block bn gives fs2. */
  ghost predicate Turn(fs: Fs, fs1: Fs, fs2: Fs, i: nat, bn: nat, addr: nat, p: nat, s: seq<Byte>)
  {
    && bn < MAXFILE && p + |s| <= BSIZE && Inv(fs1)
    && Kept(fs, fs1, i, bn) && Addr(fs1, i, bn) == addr && 0 < addr < |fs1.blocks|
    && (Addr(fs, i, bn) != 0 ==> fs1 == fs)
    && fs2 == PutBlock(fs1, addr, Patch(fs1.blocks[addr], p, s))
    && SameSlots(fs1, fs2) && Kept(fs1, fs2, i, bn)
  }

  /** A turn leaves every other block of the file as it was. */
  lemma TurnElsewhere(fs: Fs, fs1: Fs, fs2: Fs, i: nat, bn: nat, addr: nat, p: nat, s: seq<Byte>, y: nat)
    requires Turn(fs, fs1, fs2, i, bn, addr, p, s) && y < MAXFILE && y != bn && Addr(fs, i, y) != 0
    ensures SameData(fs, fs2, i, y)
  {
    assert SameData(fs, fs1, i, y);
    assert SameData(fs1, fs2, i, y);
  }

  lemma TurnByte(fs: Fs, fs1: Fs, fs2: Fs, i: nat, pos: nat, addr: nat, s: seq<Byte>, k: nat, hi: nat)
    requires Turn(fs, fs1, fs2, i, pos / BSIZE, addr, pos % BSIZE, s)
    requires pos <= hi && Backed(fs, i, hi) && k < Max(hi, pos + |s|) <= MAXBYTES
    ensures FileByte(fs2, i, k) == if pos <= k < pos + |s| then s[k - pos] else FileByte(fs, i, k)
  {
    var bn, y := pos / BSIZE, k / BSIZE;
    BlockOf(k, MAXBYTES);
    if y != bn {
      BeforeBlock(pos, |s|, k);
      TurnElsewhere(fs, fs1, fs2, i, bn, addr, pos % BSIZE, s, y);
    } else if !(pos <= k < pos + |s|) {
      assert Addr(fs, i, y) != 0;
    }
    assert Addr(fs2, i, bn) == addr;
  }

  /** A write that stays in pos's block reaches no byte of a later block. */
  lemma BeforeBlock(pos: nat, m: nat, k: nat)
    requires pos % BSIZE + m <= BSIZE && k / BSIZE != pos / BSIZE
    ensures k >= pos + m || k < pos
  {
  }

  lemma TurnHere(fs: Fs, fs1: Fs, fs2: Fs, i: nat, bn: nat, addr: nat, p: nat, s: seq<Byte>)
    requires Turn(fs, fs1, fs2, i, bn, addr, p, s)
    ensures bn < MAXFILE && p + |s| <= BSIZE && Addr(fs2, i, bn) == addr && 0 < addr < |fs2.blocks|
    ensures Kept(fs, fs1, i, bn) && Kept(fs1, fs2, i, bn)
  {
  }

  lemma TurnBackedAt(fs: Fs, fs1: Fs, fs2: Fs, i: nat, pos: nat, addr: nat, s: seq<Byte>, hi: nat, y: nat)
    requires Turn(fs, fs1, fs2, i, pos / BSIZE, addr, pos % BSIZE, s)
    requires pos <= hi && Backed(fs, i, hi) && y < MAXFILE && y * BSIZE < Max(hi, pos + |s|)
    ensures 0 < Addr(fs2, i, y) < |fs2.blocks|
  {
    hide Turn, Addr, Kept;
    TurnHere(fs, fs1, fs2, i, pos / BSIZE, addr, pos % BSIZE, s);
    if y != pos / BSIZE {
      if y * BSIZE < pos + |s| {
        BlockStart(pos, |s|, y);
      }
      TurnElsewhere(fs, fs1, fs2, i, pos / BSIZE, addr, pos % BSIZE, s, y);
    }
  }

  lemma TurnBacked(fs: Fs, fs1: Fs, fs2: Fs, i: nat, pos: nat, addr: nat, s: seq<Byte>, hi: nat)
    requires Turn(fs, fs1, fs2, i, pos / BSIZE, addr, pos % BSIZE, s)
    requires pos <= hi && Backed(fs, i, hi) && pos + |s| <= MAXBYTES
    ensures Backed(fs2, i, Max(hi, pos + |s|))
  {
    hide Turn, Addr;
    forall y: nat {:trigger Addr(fs2, i, y)} | y < MAXFILE && y * BSIZE < Max(hi, pos + |s|)
      ensures 0 < Addr(fs2, i, y) < |fs2.blocks|
    {
      TurnBackedAt(fs, fs1, fs2, i, pos, addr, s, hi, y);
    }
  }

  lemma BlockStart(pos: nat, m: nat, y: nat)
    requires pos % BSIZE + m <= BSIZE && y != pos / BSIZE && y * BSIZE < pos + m
    ensures y * BSIZE < pos
  {
  }

  lemma WrittenFrame(fs0: Fs, fs: Fs, fs1: Fs, fs2: Fs, i: nat, pos: nat, addr: nat, s: seq<Byte>, hi: nat)
    requires OthersKept(fs0, fs, i) && Backed(fs, i, hi) && pos <= hi && pos + |s| <= MAXBYTES
    requires Turn(fs, fs1, fs2, i, pos / BSIZE, addr, pos % BSIZE, s)
    ensures OthersKept(fs0, fs2, i) && Backed(fs2, i, Max(hi, pos + |s|))
  {
    hide Turn, Kept, OthersKept, Backed;
    TurnHere(fs, fs1, fs2, i, pos / BSIZE, addr, pos % BSIZE, s);
    OthersTrans(fs0, fs, fs1, i, pos / BSIZE);
    OthersTrans(fs0, fs1, fs2, i, pos / BSIZE);
    TurnBacked(fs, fs1, fs2, i, pos, addr, s, hi);
  }

  /** One turn of the loop in writei extends the written part by the bytes it copied. */
  lemma WrittenStep(fs0: Fs, fs: Fs, fs1: Fs, fs2: Fs, i: nat, off: nat, src: seq<Byte>, tot: nat, m: nat, addr: nat)
    requires i in fs0.inodes && tot + m <= |src| && off + |src| <= MAXBYTES && off <= fs0.inodes[i].size <= MAXBYTES
    requires Written(fs0, fs, i, off, src, tot)
    requires Turn(fs, fs1, fs2, i, (off + tot) / BSIZE, addr, (off + tot) % BSIZE, src[tot..tot + m])
    ensures Written(fs0, fs2, i, off, src, tot + m)
  {
    hide Turn, OthersKept, Backed, FileByte, Max;
    var size := fs0.inodes[i].size;
    MaxStep(size, off + tot, m);
    WrittenFrame(fs0, fs, fs1, fs2, i, off + tot, addr, src[tot..tot + m], Max(size, off + tot));
    forall k | 0 <= k < Max(size, off + tot + m)
      ensures FileByte(fs2, i, k) == if off <= k < off + tot + m then src[k - off] else FileByte(fs0, i, k)
    {
      WrittenByte(fs0, fs, fs1, fs2, i, off, src, tot, m, addr, k);
    }
  }

  lemma MaxStep(a: nat, b: nat, m: nat)
    ensures b <= Max(a, b) && Max(Max(a, b), b + m) == Max(a, b + m)
    ensures Max(a, b + m) == a || Max(a, b + m) == b + m
  {
  }

  lemma WrittenByte(fs0: Fs, fs: Fs, fs1: Fs, fs2: Fs, i: nat, off: nat, src: seq<Byte>, tot: nat, m: nat, addr: nat,
                    k: nat)
    requires i in fs0.inodes && tot + m <= |src| && off + |src| <= MAXBYTES && off <= fs0.inodes[i].size <= MAXBYTES
    requires Written(fs0, fs, i, off, src, tot)
    requires Turn(fs, fs1, fs2, i, (off + tot) / BSIZE, addr, (off + tot) % BSIZE, src[tot..tot + m])
    requires k < Max(fs0.inodes[i].size, off + tot + m)
    ensures FileByte(fs2, i, k) == if off <= k < off + tot + m then src[k - off] else FileByte(fs0, i, k)
  {
    hide Turn, OthersKept, Backed, FileByte;
    TurnByte(fs, fs1, fs2, i, off + tot, addr, src[tot..tot + m], k, Max(fs0.inodes[i].size, off + tot));
  }

  /** bmap alone, when the copy that should follow it fails, changes no byte of the file. */
  lemma WrittenMapped(fs0: Fs, fs: Fs, fs1: Fs, i: nat, off: nat, src: seq<Byte>, tot: nat, bn: nat)
    requires i in fs0.inodes && tot <= |src| && off + |src| <= MAXBYTES && fs0.inodes[i].size <= MAXBYTES
    requires bn < MAXFILE
    requires Written(fs0, fs, i, off, src, tot) && Kept(fs, fs1, i, bn) && (Addr(fs, i, bn) != 0 ==> fs1 == fs)
    ensures Written(fs0, fs1, i, off, src, tot)
  {
    var hi := Max(fs0.inodes[i].size, off + tot);
    OthersTrans(fs0, fs, fs1, i, bn);
    if fs1 != fs {
      forall y: nat {:trigger Addr(fs1, i, y)} | y < MAXFILE && y * BSIZE < hi
        ensures 0 < Addr(fs1, i, y) < |fs1.blocks|
      {
        assert Addr(fs, i, y) != 0 && SameData(fs, fs1, i, y);
      }
      forall k | 0 <= k < hi ensures FileByte(fs1, i, k) == FileByte(fs, i, k) {
        BlockOf(k, hi);
        assert Addr(fs, i, k / BSIZE) != 0 && SameData(fs, fs1, i, k / BSIZE);
      }
    }
  }

  // ----- the end of writei

  /** ip->size grown to cover what was written, and iupdate. */
  function Finish(fs: Fs, i: nat, off: nat): (r: Fs)
    requires CanUpdate(fs, i) && off <= MAXBYTES
  {
    SetSize(fs, i, Max(fs.inodes[i].size, off))
  }

  lemma FinishByte(fs: Fs, i: nat, off: nat, x: nat, k: nat)
    requires Inv(fs) && CanUpdate(fs, i) && off <= MAXBYTES && k < MAXBYTES
    ensures FileByte(Finish(fs, i, off), x, k) == FileByte(fs, x, k)
  {
    var n := Max(fs.inodes[i].size, off);
    SetSizeInv(fs, i, n);
    BlockOf(k, MAXBYTES);
    var a := Addr(fs, x, k / BSIZE);
    assert Addr(Finish(fs, i, off), x, k / BSIZE) == a;
    if a < |fs.blocks| {
      if a != 0 {
        AddrOwned(fs, x, k / BSIZE);
        MapBelowMeta(fs.lay);
      }
      SetSizeBlocks(fs, i, n, a);
    }
  }

  lemma SpliceAt(fs0: Fs, fs: Fs, i: nat, off: nat, src: seq<Byte>, tot: nat, k: nat)
    requires i in fs0.inodes && tot <= |src| && off + |src| <= MAXBYTES && off <= fs0.inodes[i].size <= MAXBYTES
    requires Written(fs0, fs, i, off, src, tot) && k < Max(fs0.inodes[i].size, off + tot)
    requires Inv(fs) && CanUpdate(fs, i)
    ensures k < |Splice(Content(fs0, i), off, src[..tot])|
    ensures FileByte(Finish(fs, i, off + tot), i, k) == Splice(Content(fs0, i), off, src[..tot])[k]
  {
    hide FileByte, Backed, Addr, Content, Splice, Inv, CanUpdate, SetSize, OthersKept;
    FinishByte(fs, i, off + tot, i, k);
    SpliceByte(Content(fs0, i), off, src[..tot], k);
    if k < fs0.inodes[i].size {
      ContentAt(fs0, i, k);
    }
  }

  lemma SpliceByte(c: seq<Byte>, off: nat, s: seq<Byte>, k: nat)
    requires off <= |c| && k < Max(|c|, off + |s|)
    ensures |Splice(c, off, s)| == Max(|c|, off + |s|)
    ensures Splice(c, off, s)[k] == if off <= k < off + |s| then s[k - off] else c[k]
  {
  }

  lemma WrittenKeys(fs0: Fs, fs: Fs, i: nat, off: nat, src: seq<Byte>, tot: nat)
    requires i in fs0.inodes && tot <= |src| && off + |src| <= MAXBYTES && fs0.inodes[i].size <= MAXBYTES
    requires Written(fs0, fs, i, off, src, tot)
    ensures fs.inodes.Keys == fs0.inodes.Keys && fs.inodes[i].size == fs0.inodes[i].size
    ensures OthersKept(fs0, fs, i) && Backed(fs, i, Max(fs0.inodes[i].size, off + tot))
  {
    assert OthersKept(fs0, fs, i);
  }

  /** Writing splices the bytes into the file. */
  lemma WrittenIsSplice(fs0: Fs, fs: Fs, i: nat, off: nat, src: seq<Byte>, tot: nat)
    requires i in fs0.inodes && tot <= |src| && off + |src| <= MAXBYTES && off <= fs0.inodes[i].size <= MAXBYTES
    requires Written(fs0, fs, i, off, src, tot) && Inv(fs) && CanUpdate(fs, i)
    ensures var r := Finish(fs, i, off + tot);
            && r.inodes[i].size <= MAXBYTES && Content(r, i) == Splice(Content(fs0, i), off, src[..tot])
  {
    var r := Finish(fs, i, off + tot);
    var c := Splice(Content(fs0, i), off, src[..tot]);
    assert r.inodes[i].size == Max(fs0.inodes[i].size, off + tot) == |c|;
    hide FileByte, Written, Splice, Finish;
    forall k | 0 <= k < |c| ensures FileByte(r, i, k) == c[k] {
      SpliceAt(fs0, fs, i, off, src, tot, k);
    }
  }

  /** Writing one file changes no other. */
  lemma WrittenOthers(fs0: Fs, fs: Fs, i: nat, off: nat, x: nat)
    requires OthersKept(fs0, fs, i) && x in fs0.inodes && x != i && Backed(fs0, x, fs0.inodes[x].size)
    requires Inv(fs) && CanUpdate(fs, i) && off <= MAXBYTES
    ensures var r := Finish(fs, i, off);
            && x in r.inodes && r.inodes[x].size == fs0.inodes[x].size && Backed(r, x, r.inodes[x].size)
            && Content(r, x) == Content(fs0, x)
  {
    hide Inv, Resolve, FileByte, Dinode, SetSize;
    var r := Finish(fs, i, off);
    SetSizeInv(fs, i, Max(fs.inodes[i].size, off));
    FinishLength(fs, i, off);
    forall bn: nat {:trigger Addr(r, x, bn)} | bn < MAXFILE && bn * BSIZE < fs0.inodes[x].size
      ensures 0 < Addr(r, x, bn) < |r.blocks|
    {
      assert SameData(fs0, fs, x, bn);
      assert Addr(r, x, bn) == Addr(fs, x, bn);
    }
    forall k | 0 <= k < fs0.inodes[x].size ensures FileByte(r, x, k) == FileByte(fs0, x, k) {
      BlockOf(k, fs0.inodes[x].size);
      assert SameData(fs0, fs, x, k / BSIZE);
      SameByte(fs0, fs, x, k);
      FinishByte(fs, i, off, x, k);
    }
  }

  lemma FinishLength(fs: Fs, i: nat, off: nat)
    requires CanUpdate(fs, i) && off <= MAXBYTES
    ensures var r := Finish(fs, i, off); |r.blocks| == |fs.blocks| && r.inodes.Keys == fs.inodes.Keys
    ensures forall x :: x in fs.inodes && x != i ==> Finish(fs, i, off).inodes[x] == fs.inodes[x]
  {
  }

  lemma SameByte(fs0: Fs, fs: Fs, x: nat, k: nat)
    requires k / BSIZE < MAXFILE && SameData(fs0, fs, x, k / BSIZE)
    ensures FileByte(fs, x, k) == FileByte(fs0, x, k)
  {
    hide Resolve;
  }
}
