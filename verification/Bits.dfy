/** The bit tests and updates of the kernel's bitmaps: `x & m`, `x |= m` and `x &= ~m` for
    `m = 1 << k`, as arithmetic on naturals. */
module Bits {
  import opened Blocks

  function Pow2(n: nat): (r: nat)
  {
    if n == 0 then 1 else 2 * Pow2(n - 1)
  }

  /** x & (1 << k) is nonzero. */
  predicate Bit(x: nat, k: nat)
  {
    if k == 0 then x % 2 == 1 else Bit(x / 2, k - 1)
  }

  /** x | (1 << k), or x & ~(1 << k). */
  function WithBit(x: nat, k: nat, on: bool): (r: nat)
  {
    if k == 0 then x - x % 2 + (if on then 1 else 0) else 2 * WithBit(x / 2, k - 1, on) + x % 2
  }

  /** Only bit k is set to `on`. */
  lemma {:induction false} BitOfWithBit(x: nat, k: nat, on: bool, j: nat)
    ensures Bit(WithBit(x, k, on), j) == if j == k then on else Bit(x, j)
  {
    if k > 0 && j > 0 {
      BitOfWithBit(x / 2, k - 1, on, j - 1);
    }
  }

  /** The update is the addition or subtraction of 1 << k, when it changes anything. */
  lemma {:induction false} WithBitIsSum(x: nat, k: nat, on: bool)
    ensures WithBit(x, k, on) == if Bit(x, k) == on then x else if on then x + Pow2(k) else x - Pow2(k)
  {
    if k > 0 {
      WithBitIsSum(x / 2, k - 1, on);
    }
  }

  /** A byte stays a byte. */
  lemma {:induction false} WithBitFits(x: nat, k: nat, on: bool, n: nat)
    requires x < Pow2(n) && k < n
    ensures WithBit(x, k, on) < Pow2(n)
  {
    assert Pow2(n) == 2 * Pow2(n - 1);
    if k > 0 {
      assert x / 2 < Pow2(n - 1);
      WithBitFits(x / 2, k - 1, on, n - 1);
    }
  }

  // ----- bitmaps

  /** Bit i of a bitmap of bytes. */
  predicate BitAt(m: seq<Byte>, i: nat)
    requires i < 8 * |m|
  {
    Bit(m[i / 8], i % 8)
  }

  function SetBitAt(m: seq<Byte>, i: nat, on: bool): (r: seq<Byte>)
    requires i < 8 * |m|
    ensures |r| == |m|
    ensures forall j :: 0 <= j < 8 * |m| ==> BitAt(r, j) == if j == i then on else BitAt(m, j)
  {
    assert Pow2(8) == 256;
    WithBitFits(m[i / 8], i % 8, on, 8);
    var r: seq<Byte> := m[i / 8 := WithBit(m[i / 8], i % 8, on)];
    SetBitAtCorrect(m, i, on, r);
    r
  }

  lemma SetBitAtCorrect(m: seq<Byte>, i: nat, on: bool, r: seq<Byte>)
    requires i < 8 * |m| && WithBit(m[i / 8], i % 8, on) < 256 && r == m[i / 8 := WithBit(m[i / 8], i % 8, on)]
    ensures forall j :: 0 <= j < 8 * |m| ==> BitAt(r, j) == if j == i then on else BitAt(m, j)
  {
    forall j | 0 <= j < 8 * |m| ensures BitAt(r, j) == if j == i then on else BitAt(m, j) {
      BitOfWithBit(m[i / 8], i % 8, on, j % 8);
    }
  }

  /** Setting a clear bit and clearing it again restores the bitmap. */
  lemma SetThenClear(m: seq<Byte>, i: nat)
    requires i < 8 * |m| && !BitAt(m, i)
    ensures SetBitAt(SetBitAt(m, i, true), i, false) == m
  {
    var x := m[i / 8];
    WithBitIsSum(x, i % 8, true);
    BitOfWithBit(x, i % 8, true, i % 8);
    WithBitIsSum(WithBit(x, i % 8, true), i % 8, false);
    assert SetBitAt(m, i, true)[i / 8] == WithBit(x, i % 8, true);
    hide BitAt;
    assert SetBitAt(SetBitAt(m, i, true), i, false)[i / 8] == x;
  }
}
