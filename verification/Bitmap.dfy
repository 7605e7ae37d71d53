/** The free map: one bit for each block of the disk, 4096 bits to a block. */
module Bitmap {
  import opened Blocks

  const BPB: nat := 4096  // BSIZE * 8

  function Exp2(n: nat): (m: nat)
    ensures m > 0
  {
    if n == 0 then 1 else 2 * Exp2(n - 1)
  }

  /** x & (1 << k) != 0 */
  predicate BitOf(x: nat, k: nat) {
    if k == 0 then x % 2 == 1 else BitOf(x / 2, k - 1)
  }

  /** x with bit k switched on, as by |, or off, as by & ~ */
  function WithBit(x: nat, k: nat, on: bool): nat {
    if k == 0 then x - x % 2 + (if on then 1 else 0) else x % 2 + 2 * WithBit(x / 2, k - 1, on)
  }

  lemma {:induction false} BitWithBit(x: nat, k: nat, on: bool, j: nat)
    ensures BitOf(WithBit(x, k, on), j) <==> if j == k then on else BitOf(x, j)
  {
    if k > 0 && j > 0 {
      BitWithBit(x / 2, k - 1, on, j - 1);
    }
  }

  lemma {:induction false} WithBitFits(x: nat, k: nat, on: bool, n: nat)
    requires x < Exp2(n) && k < n
    ensures WithBit(x, k, on) < Exp2(n)
  {
    if k > 0 {
      WithBitFits(x / 2, k - 1, on, n - 1);
    }
  }

  /** Switching a clear bit on adds its mask, switching a set bit off subtracts it. */
  lemma {:induction false} WithBitMask(x: nat, k: nat, on: bool)
    ensures WithBit(x, k, on) + (if !on && BitOf(x, k) then Exp2(k) else 0) == x + if on && !BitOf(x, k) then Exp2(k) else 0
  {
    if k > 0 {
      WithBitMask(x / 2, k - 1, on);
    }
  }

  /** A byte with one bit switched. */
  function SetBitOf(x: byte, k: nat, on: bool): byte
    requires k < 8
  {
    assert Exp2(4) == 16 && Exp2(8) == 16 * Exp2(4);
    WithBitFits(x, k, on, 8);
    WithBit(x, k, on)
  }

  /** Is block b marked in use? The map starts at block `start`. */
  predicate Used(image: Image, start: nat, b: nat)
    requires start + b / BPB < |image|
  {
    BitOf(image[start + b / BPB][b % BPB / 8], b % BPB % 8)
  }

  function SetUsed(image: Image, start: nat, b: nat, on: bool): (image': Image)
    requires start + b / BPB < |image|
    ensures |image'| == |image|
  {
    var block := image[start + b / BPB];
    image[start + b / BPB := block[b % BPB / 8 := SetBitOf(block[b % BPB / 8], b % BPB % 8, on)]]
  }

  /** Marking one block changes the mark of that block alone. */
  lemma UsedSetUsed(image: Image, start: nat, b: nat, on: bool, c: nat)
    requires start + b / BPB < |image| && start + c / BPB < |image|
    ensures Used(SetUsed(image, start, b, on), start, c) <==> if c == b then on else Used(image, start, c)
  {
    var x := image[start + b / BPB][b % BPB / 8];
    BitWithBit(x, b % BPB % 8, on, c % BPB % 8);
    if c / BPB == b / BPB && c % BPB / 8 == b % BPB / 8 && c % BPB % 8 == b % BPB % 8 {
      assert c == c / BPB * BPB + c % BPB && b == b / BPB * BPB + b % BPB;
      assert c % BPB == c % BPB / 8 * 8 + c % BPB % 8 && b % BPB == b % BPB / 8 * 8 + b % BPB % 8;
    }
  }
}
