/** Disk blocks: 512 bytes, also readable as an array of 128 little-endian 32-bit words. */
module Blocks {
  const BSIZE: nat := 512
  const WORDS: nat := 128

  type byte = x: int | 0 <= x < 0x100
  type word = x: int | 0 <= x < 0x1_0000_0000
  type Block = b: seq<byte> | |b| == BSIZE witness seq(BSIZE, _ => 0)

  /** A disk image: what survives a crash. */
  type Image = seq<Block>

  function ZeroBlock(): (b: Block)
    ensures forall i :: 0 <= i < BSIZE ==> b[i] == 0
  {
    seq(BSIZE, _ => 0)
  }

  function Word(b: Block, i: nat): word
    requires i < WORDS
  {
    var b0: int, b1: int, b2: int, b3: int := b[4 * i], b[4 * i + 1], b[4 * i + 2], b[4 * i + 3];
    b0 + 0x100 * b1 + 0x1_0000 * b2 + 0x100_0000 * b3
  }

  function SetWord(b: Block, i: nat, v: word): Block
    requires i < WORDS
  {
    b[4 * i := v % 0x100]
     [4 * i + 1 := v / 0x100 % 0x100]
     [4 * i + 2 := v / 0x100 / 0x100 % 0x100]
     [4 * i + 3 := v / 0x100 / 0x100 / 0x100]
  }

  /** Storing a word and reading words back: only the stored one changes, and nothing is truncated. */
  lemma WordSetWord(b: Block, i: nat, v: word, j: nat)
    requires i < WORDS && j < WORDS
    ensures Word(SetWord(b, i, v), j) == if j == i then v else Word(b, j)
  {
    var c := SetWord(b, i, v);
    if i == j {
      Digits(v);
      assert c[4 * i] == v % 0x100 && c[4 * i + 1] == v / 0x100 % 0x100;
    } else {
      assert c[4 * j] == b[4 * j] && c[4 * j + 1] == b[4 * j + 1];
      assert c[4 * j + 2] == b[4 * j + 2] && c[4 * j + 3] == b[4 * j + 3];
    }
  }

  lemma Digits(v: word)
    ensures v == v % 0x100 + 0x100 * (v / 0x100 % 0x100) + 0x1_0000 * (v / 0x100 / 0x100 % 0x100)
                 + 0x100_0000 * (v / 0x100 / 0x100 / 0x100)
  {
    var q1 := v / 0x100;
    var q2 := q1 / 0x100;
    var q3 := q2 / 0x100;
    assert v == 0x100 * q1 + v % 0x100 && q1 == 0x100 * q2 + q1 % 0x100 && q2 == 0x100 * q3 + q2 % 0x100;
  }

  lemma ZeroWord(i: nat)
    requires i < WORDS
    ensures Word(ZeroBlock(), i) == 0
  {
  }
}
