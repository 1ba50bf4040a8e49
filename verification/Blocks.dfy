/** Disk blocks as byte sequences, and the little-endian 32-bit words the kernel
    overlays on them (the log header and the indirect block are both `uint` arrays
    laid over a block's data). */
module Blocks {

  const BSIZE := 1024

  /** 32-bit words in a block. */
  const WORDS := 256

  type Byte = n: nat | n < 256

  type Word = n: nat | n < 0x1_0000_0000

  type Block = b: seq<Byte> | |b| == BSIZE witness seq(1024, _ => 0)

  function ZeroBlock(): (b: Block)
    ensures forall i :: 0 <= i < BSIZE ==> b[i] == 0
  {
    seq(BSIZE, _ => 0)
  }

  /** The i-th word of the block, little endian. */
  function WordAt(b: Block, i: nat): (w: Word)
    requires i < WORDS
  {
    var b0: int, b1: int, b2: int, b3: int := b[4 * i], b[4 * i + 1], b[4 * i + 2], b[4 * i + 3];
    b0 + 0x100 * b1 + 0x1_0000 * b2 + 0x100_0000 * b3
  }

  function SetWord(b: Block, i: nat, w: Word): (r: Block)
    requires i < WORDS
    ensures forall k :: 0 <= k < BSIZE && k / 4 != i ==> r[k] == b[k]
  {
    b[4 * i := w % 0x100][4 * i + 1 := w / 0x100 % 0x100]
     [4 * i + 2 := w / 0x1_0000 % 0x100][4 * i + 3 := w / 0x100_0000]
  }

  lemma WordSplit(w: Word)
    ensures w == w % 0x100 + 0x100 * (w / 0x100 % 0x100) + 0x1_0000 * (w / 0x1_0000 % 0x100)
                 + 0x100_0000 * (w / 0x100_0000)
  {
    assert w / 0x1_0000 == (w / 0x100) / 0x100;
    assert w / 0x100_0000 == (w / 0x1_0000) / 0x100;
  }

  /** Writing a word is read back, and no other word changes. */
  lemma WordOfSetWord(b: Block, i: nat, w: Word, j: nat)
    requires i < WORDS && j < WORDS
    ensures WordAt(SetWord(b, i, w), j) == if i == j then w else WordAt(b, j)
  {
    WordSplit(w);
  }

  /** The block with words ws[k..] stored from word at + k on. */
  function PutWords(b: Block, at: nat, ws: seq<Word>, k: nat): (r: Block)
    requires k <= |ws| && at + |ws| <= WORDS
    decreases |ws| - k
  {
    if k == |ws| then b else PutWords(SetWord(b, at + k, ws[k]), at, ws, k + 1)
  }

  lemma {:induction false} WordOfPutWords(b: Block, at: nat, ws: seq<Word>, k: nat, j: nat)
    requires k <= |ws| && at + |ws| <= WORDS && j < WORDS
    ensures WordAt(PutWords(b, at, ws, k), j) == if at + k <= j < at + |ws| then ws[j - at] else WordAt(b, j)
    decreases |ws| - k
  {
    if k < |ws| {
      WordOfPutWords(SetWord(b, at + k, ws[k]), at, ws, k + 1, j);
      WordOfSetWord(b, at + k, ws[k], j);
    }
  }

  lemma WordOfZero(i: nat)
    requires i < WORDS
    ensures WordAt(ZeroBlock(), i) == 0
  {
  }
}
