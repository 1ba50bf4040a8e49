/** How many distinct blocks an operation of fs.c logs, against MAXOPBLOCKS of kernel/param.h. */
module FsLog {
  import opened Blocks
  import opened Naturals
  import opened Dinodes
  import opened FsState
  import opened FsContent
  import opened LogDisk
  import LogSpace

  function Elems(log: seq<nat>): (r: set<nat>)
  {
    set x | x in log
  }

  /** Every logged block is a data block of D, a map block of M, or the indirect block. */
  ghost predicate Covered(log: seq<nat>, D: set<nat>, M: set<nat>, root: nat)
  {
    forall x :: x in log ==> x in D || x in M || x == root != 0
  }

  lemma CardUnion(a: set<nat>, b: set<nat>)
    ensures |a + b| <= |a| + |b|
  {
    assert a + b == a + (b - a);
    assert |b - a| <= |b| by {
      assert b == (b - a) + (b * a);
    }
  }

  lemma CardSubset(a: set<nat>, b: set<nat>)
    requires a <= b
    ensures |a| <= |b|
  {
    assert b == a + (b - a);
  }

  lemma CoveredCard(log: seq<nat>, D: set<nat>, M: set<nat>, root: nat)
    requires Covered(log, D, M, root)
    ensures |Elems(log)| <= |D| + |M| + 1
  {
    CardUnion(D, M);
    CardUnion(D + M, {root});
    CardSubset(Elems(log), D + M + {root});
  }

  /** The blocks of the free map. */
  function MapBlocks(l: Layout): (n: nat) { (l.size + BPB - 1) / BPB }

  predicate IsMap(l: Layout, x: nat) { l.bmapstart <= x < l.bmapstart + MapBlocks(l) }

  lemma MapIsMap(l: Layout, b: nat)
    requires b < l.size
    ensures IsMap(l, MapBlock(l, b))
  {
  }

  lemma {:induction false} CardAtMost(lo: nat, n: nat, s: set<nat>)
    requires forall x :: x in s ==> lo <= x < lo + n
    ensures |s| <= n
    decreases n
  {
    if n == 0 {
      assert s == {};
    } else {
      var x := lo + n - 1;
      CardAtMost(lo, n - 1, s - {x});
      CardUnion(s - {x}, {x});
      CardSubset(s, s - {x} + {x});
    }
  }

  /** The number of blocks that n bytes at off touch. */
  function Span(off: nat, n: nat): (r: nat)
  {
    if n == 0 then 0 else (off + n - 1) / BSIZE - off / BSIZE + 1
  }

  /** A write of at most three blocks' worth of bytes touches three blocks, or four if it starts
      inside one. */
  lemma SpanOfChunk(off: nat, n: nat)
    requires n <= 3 * BSIZE
    ensures Span(off, n) <= if off % BSIZE == 0 then 3 else 4
  {
  }

  /** How much of `left` bytes at pos one turn of the loops in readi and writei moves. */
  function Piece(pos: nat, left: nat): (m: nat)
    requires left > 0
    ensures 0 < m <= left && pos % BSIZE + m <= BSIZE
  {
    if left < BSIZE - pos % BSIZE then left else BSIZE - pos % BSIZE
  }

  /** After a whole turn the position is at the start of a block, or everything is done. */
  ghost predicate AtBlock(off: nat, tot: nat, n: nat)
  {
    0 < tot < n ==> (off + tot) % BSIZE == 0
  }

  /** Each turn of the loops moves on to the next block. */
  lemma SpanStep(off: nat, tot: nat, n: nat)
    requires tot < n && AtBlock(off, tot, n)
    ensures var m := Piece(off + tot, n - tot);
            Span(off, tot + m) == Span(off, tot) + 1 <= Span(off, n) && AtBlock(off, tot + m, n)
  {
  }

  /** The log_write calls since fs0, after `it` turns of the loop of which `da` allocated a data block. */
  ghost predicate Logging(fs0: Fs, fs: Fs, i: nat, off: nat, it: nat, da: nat, D: set<nat>, M: set<nat>)
  {
    && |fs0.log| <= |fs.log| && fs.log[..|fs0.log|] == fs0.log
    && Covered(fs.log[|fs0.log|..], D, M, Root(fs, i))
    && |D| <= it && |M| <= da + (if Root(fs0, i) == 0 && Root(fs, i) != 0 then 1 else 0)
    && da + (if off % BSIZE != 0 && it > 0 then 1 else 0) <= it
    && (Root(fs0, i) != 0 ==> Root(fs, i) == Root(fs0, i))
    && fs.lay == fs0.lay && (forall x :: x in M ==> IsMap(fs0.lay, x)) && Logged(fs0, fs)
  }

  /** The log_write calls of bmap: the new block, the indirect block, and at most one map block per
      allocation. */
  ghost predicate MapLogged(fs0: Fs, fs: Fs, i: nat, bn: nat, addr: nat, maps: set<nat>)
    requires bn < MAXFILE
  {
    && |fs0.log| <= |fs.log| && fs.log[..|fs0.log|] == fs0.log
    && (forall k :: |fs0.log| <= k < |fs.log| ==>
          fs.log[k] in maps || fs.log[k] == addr || fs.log[k] == Root(fs, i) != 0)
    && (Root(fs0, i) != 0 ==> Root(fs, i) == Root(fs0, i))
    && |maps| <= (if Addr(fs0, i, bn) == 0 then 1 else 0) + (if Root(fs0, i) == 0 && Root(fs, i) != 0 then 1 else 0)
    && fs.lay == fs0.lay && (forall x :: x in maps ==> IsMap(fs0.lay, x)) && Logged(fs0, fs)
  }

  /** One more turn's bmap. */
  lemma LoggingMap(fs0: Fs, fs: Fs, fs1: Fs, i: nat, off: nat, it: nat, da: nat, D: set<nat>, M: set<nat>,
                   bn: nat, addr: nat, maps: set<nat>)
    requires bn < MAXFILE && Logging(fs0, fs, i, off, it, da, D, M) && MapLogged(fs, fs1, i, bn, addr, maps)
    requires it == 0 && off % BSIZE != 0 ==> Addr(fs, i, bn) != 0
    ensures Logging(fs0, fs1, i, off, it + 1, da + (if Addr(fs, i, bn) == 0 then 1 else 0), D + {addr}, M + maps)
  {
    LoggedTrans(fs0, fs, fs1);
    hide Logged, IsMap;
    var n0, n := |fs0.log|, |fs.log|;
    CardUnion(D, {addr});
    CardUnion(M, maps);
    assert fs1.log[..n0] == fs1.log[..n][..n0] == fs0.log;
    forall x | x in fs1.log[n0..] ensures x in D + {addr} || x in M + maps || x == Root(fs1, i) != 0 {
      var k :| n0 <= k < |fs1.log| && fs1.log[k] == x;
      if k < n {
        assert fs1.log[..n][k] == fs.log[k] && fs.log[k] in fs.log[n0..];
      }
    }
  }

  /** The log_write after the copy: the block is counted already. */
  lemma LoggingPut(fs0: Fs, fs: Fs, i: nat, off: nat, it: nat, da: nat, D: set<nat>, M: set<nat>, addr: nat, d: Block)
    requires Logging(fs0, fs, i, off, it, da, D, M) && addr in D && addr < |fs.blocks|
    ensures Logging(fs0, PutBlock(fs, addr, d), i, off, it, da, D, M)
  {
    PutLogged(fs, addr, d);
    LoggedTrans(fs0, fs, PutBlock(fs, addr, d));
    hide Logged, IsMap;
    var n0 := |fs0.log|;
    var r := PutBlock(fs, addr, d);
    assert r.log[..n0] == fs.log[..n0];
    assert r.log[n0..] == fs.log[n0..] + [addr];
  }

  /** The distinct blocks writei logs for n bytes at off: the data blocks it touches, a map block for
      each it had to allocate and for the indirect block, the indirect block, and last the inode. */
  ghost predicate WriteLogged(fs0: Fs, fs: Fs, off: nat, n: nat)
  {
    var added := if |fs0.log| <= |fs.log| then fs.log[|fs0.log|..] else [];
    && added != [] && fs.log[..|fs0.log|] == fs0.log
    && |Elems(added[..|added| - 1])| + 1 <= 2 * Span(off, n) + 3 - (if off % BSIZE != 0 && n > 0 then 1 else 0)
    && |Elems(added[..|added| - 1])| + 1 <= Span(off, n) + MapBlocks(fs0.lay) + 2
    && Logged(fs0, fs)
  }

  lemma LoggingEnd(fs0: Fs, fs: Fs, i: nat, off: nat, n: nat, it: nat, da: nat, D: set<nat>, M: set<nat>, end: nat)
    requires Logging(fs0, fs, i, off, it, da, D, M) && it <= Span(off, n) && (n > 0 ==> it > 0)
    requires CanUpdate(fs, i) && end <= MAXBYTES
    ensures WriteLogged(fs0, Finish(fs, i, end), off, n)
  {
    var n0 := |fs0.log|;
    var r := Finish(fs, i, end);
    SetSizeLogged(fs0, fs, i, Max(fs.inodes[i].size, end));
    hide Logged, PutDinode;
    assert r.log[n0..][..|r.log[n0..]| - 1] == fs.log[n0..];
    assert r.log[..n0] == fs.log[..n0];
    CoveredCard(fs.log[n0..], D, M, Root(fs, i));
    CardAtMost(fs0.lay.bmapstart, MapBlocks(fs0.lay), M);
  }

  /** A transaction may make these log_write calls: fewer than MAXOPBLOCKS distinct blocks are logged
      before each of them. */
  ghost predicate FitsTransaction(log: seq<nat>)
  {
    forall p :: 0 <= p < |log| ==> |Elems(log[..p])| < MAXOPBLOCKS
  }

  /** The calls of one writei fit if they come to at most MAXOPBLOCKS distinct blocks, the inode's being the last. */
  lemma WriteFits(log: seq<nat>)
    requires log != [] && |Elems(log[..|log| - 1])| + 1 <= MAXOPBLOCKS
    ensures FitsTransaction(log) && |Elems(log)| <= MAXOPBLOCKS
  {
    var init := log[..|log| - 1];
    forall p | 0 <= p < |log| ensures |Elems(log[..p])| < MAXOPBLOCKS {
      assert log[..p] == init[..p];
      CardSubset(Elems(log[..p]), Elems(init));
    }
    CardUnion(Elems(init), {log[|log| - 1]});
    assert Elems(log) <= Elems(init) + {log[|log| - 1]} by {
      assert log == init + [log[|log| - 1]];
    }
    CardSubset(Elems(log), Elems(init) + {log[|log| - 1]});
  }

  /** A swapped-out page, one writei of 4096 bytes at a multiple of 4096, fits on a file system whose free map has at
      most four blocks; that of mkfs, 2000 blocks large, has one. */
  lemma SwapFits(fs0: Fs, fs: Fs, off: nat)
    requires fs0.log == [] && WriteLogged(fs0, fs, off, 4 * BSIZE) && off % (4 * BSIZE) == 0 && MapBlocks(fs0.lay) <= 4
    ensures FitsTransaction(fs.log) && |Elems(fs.log)| <= MAXOPBLOCKS
  {
    SwapSpan(off);
    assert fs.log[0..] == fs.log;
    WriteFits(fs.log);
  }

  lemma SwapSpan(off: nat)
    requires off % (4 * BSIZE) == 0
    ensures Span(off, 4 * BSIZE) == 4
  {
    var k := off / (4 * BSIZE);
    assert off == BSIZE * (4 * k);
    assert off / BSIZE == 4 * k;
    assert (off + 4 * BSIZE - 1) / BSIZE == 4 * k + 3;
  }

  /** A filewrite chunk, started with an empty transaction, fits. */
  lemma ChunkFits(fs0: Fs, fs: Fs, off: nat, n: nat)
    requires fs0.log == [] && WriteLogged(fs0, fs, off, n) && n <= 3 * BSIZE
    ensures FitsTransaction(fs.log) && |Elems(fs.log)| <= MAXOPBLOCKS
  {
    SpanOfChunk(off, n);
    assert fs.log[0..] == fs.log;
    WriteFits(fs.log);
  }

  /** Such a transaction takes only steps that LogSpace.LogSpaceSafe allows, whatever the other operations
      have done: its k-th log_write does not panic. */
  lemma ChunkStep(log: seq<nat>, k: nat, s: LogSpace.State, p: nat)
    requires FitsTransaction(log) && |Elems(log)| <= MAXOPBLOCKS && k < |log| && log[k] < 0x1_0000_0000
    requires LogSpace.Inv(s) && p < |s.ops| && s.ops[p].Open? && s.ops[p].written == Elems(log[..k])
    ensures var r := LogSpace.LogWrite(s, p, log[k]);
            && LogSpace.LogWriteStep(s, r, p, log[k], MAXOPBLOCKS - 1) && LogSpace.Inv(r)
            && r.ops[p].Open? && r.ops[p].written == Elems(log[..k + 1])
  {
    assert log[..k + 1] == log[..k] + [log[k]];
    assert Elems(log[..k + 1]) == Elems(log[..k]) + {log[k]};
    CardSubset(Elems(log[..k + 1]), Elems(log));
    LogSpace.LogWriteExact(s, LogSpace.LogWrite(s, p, log[k]), p, log[k]);
  }
}
