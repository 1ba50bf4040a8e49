/** Inodes as they lie on the disk: `struct dinode` of kernel/fs.h, 16 words each and 16 to a block. */
module Dinodes {
  import opened Blocks

  const NDIRECT := 12

  /** Words in a dinode, and dinodes in a block. */
  const DWORDS := 16
  const IPB := 16

  /** `kind` is the word with type and major, `links` the one with minor and nlink. */
  datatype Inode = Inode(kind: Word, links: Word, size: Word, addrs: seq<Word>)

  /** An inode of type 0 is free. */
  predicate InUse(ip: Inode) { ip.kind % 0x1_0000 != 0 }

  function Words(ip: Inode): (ws: seq<Word>)
    ensures |ws| == 3 + |ip.addrs|
  {
    [ip.kind, ip.links, ip.size] + ip.addrs
  }

  /** The block with inode ip in place k. */
  function PutDinode(b: Block, k: nat, ip: Inode): (r: Block)
    requires k < IPB && |ip.addrs| == NDIRECT + 1
  {
    PutWords(b, DWORDS * k, Words(ip), 0)
  }

  function AddrsAt(b: Block, k: nat): (a: seq<Word>)
    requires k < IPB
    ensures |a| == NDIRECT + 1 && forall q :: 0 <= q <= NDIRECT ==> a[q] == WordAt(b, DWORDS * k + 3 + q)
  {
    seq<Word>(NDIRECT + 1, q requires 0 <= q <= NDIRECT => WordAt(b, DWORDS * k + 3 + q))
  }

  /** The inode in place k of a block. */
  function DinodeAt(b: Block, k: nat): (ip: Inode)
    requires k < IPB
    ensures |ip.addrs| == NDIRECT + 1
  {
    Inode(WordAt(b, DWORDS * k), WordAt(b, DWORDS * k + 1), WordAt(b, DWORDS * k + 2), AddrsAt(b, k))
  }

  lemma WordOfDinode(b: Block, k: nat, ip: Inode, m: nat, q: nat)
    requires k < IPB && m < IPB && |ip.addrs| == NDIRECT + 1 && q < DWORDS
    ensures WordAt(PutDinode(b, k, ip), DWORDS * m + q) == if m == k then Words(ip)[q] else WordAt(b, DWORDS * m + q)
  {
    WordOfPutWords(b, DWORDS * k, Words(ip), 0, DWORDS * m + q);
  }

  /** Where the fields lie: type and major, minor and nlink, size, then the addresses, in that order. */
  lemma DinodeLayout(b: Block, k: nat, ip: Inode, q: nat)
    requires k < IPB && |ip.addrs| == NDIRECT + 1 && q <= NDIRECT
    ensures var r := PutDinode(b, k, ip);
            && WordAt(r, 16 * k) == ip.kind && WordAt(r, 16 * k + 1) == ip.links && WordAt(r, 16 * k + 2) == ip.size
            && WordAt(r, 16 * k + 3 + q) == ip.addrs[q]
  {
    hide PutDinode, WordAt, Words;
    WordsOf(ip);
    WordOfDinode(b, k, ip, k, 0);
    WordOfDinode(b, k, ip, k, 1);
    WordOfDinode(b, k, ip, k, 2);
    WordOfDinode(b, k, ip, k, 3 + q);
    assert DWORDS * k + (3 + q) == 16 * k + 3 + q;
  }

  /** An inode is read back as it was written, and its neighbours in the block are untouched. */
  lemma DinodeOfPut(b: Block, k: nat, ip: Inode, m: nat)
    requires k < IPB && m < IPB && |ip.addrs| == NDIRECT + 1
    ensures DinodeAt(PutDinode(b, k, ip), m) == if m == k then ip else DinodeAt(b, m)
  {
    hide PutDinode, WordAt, AddrsAt, Words;
    WordOfDinode(b, k, ip, m, 0);
    WordOfDinode(b, k, ip, m, 1);
    WordOfDinode(b, k, ip, m, 2);
    WordsOf(ip);
    AddrsOfPut(b, k, ip, m);
  }

  lemma WordsOf(ip: Inode)
    requires |ip.addrs| == NDIRECT + 1
    ensures Words(ip)[0] == ip.kind && Words(ip)[1] == ip.links && Words(ip)[2] == ip.size
    ensures forall q :: 0 <= q <= NDIRECT ==> Words(ip)[3 + q] == ip.addrs[q]
  {
  }

  lemma AddrsOfPut(b: Block, k: nat, ip: Inode, m: nat)
    requires k < IPB && m < IPB && |ip.addrs| == NDIRECT + 1
    ensures AddrsAt(PutDinode(b, k, ip), m) == if m == k then ip.addrs else AddrsAt(b, m)
  {
    hide PutDinode, WordAt, Words;
    WordsOf(ip);
    var x, y := AddrsAt(PutDinode(b, k, ip), m), if m == k then ip.addrs else AddrsAt(b, m);
    forall q | 0 <= q <= NDIRECT ensures x[q] == y[q] {
      WordOfDinode(b, k, ip, m, 3 + q);
      assert DWORDS * m + (3 + q) == DWORDS * m + 3 + q;
    }
    assert x == y;
  }
}
