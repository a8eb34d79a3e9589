/** Disk blocks as bytes, with the two views the file system takes of them:
    little-endian 32-bit words and bitmap bits. */
module Blocks {
  type Byte = x: int | 0 <= x < 256

  const BSIZE := 1024
  const WORDS := 256
  const WORD_LIMIT := 0x1_0000_0000

  /** memset: n bytes c. */
  function Fill(c: Byte, n: nat): (s: seq<Byte>)
    ensures |s| == n && forall i :: 0 <= i < n ==> s[i] == c
  {
    seq<Byte>(n, _ => c)
  }

  type Block = b: seq<Byte> | |b| == BSIZE witness Fill(0, BSIZE)

  const Zero: Block := Fill(0, BSIZE)

  function GetWord(b: Block, i: nat): (w: nat)
    requires i < WORDS
  {
    b[4 * i] as int + 0x100 * (b[4 * i + 1] as int) + 0x1_0000 * (b[4 * i + 2] as int)
    + 0x100_0000 * (b[4 * i + 3] as int)
  }

  function PutWord(b: Block, i: nat, w: nat): (r: Block)
    requires i < WORDS && w < WORD_LIMIT
  {
    b[4 * i := w % 0x100][4 * i + 1 := w / 0x100 % 0x100]
     [4 * i + 2 := w / 0x100 / 0x100 % 0x100][4 * i + 3 := w / 0x100 / 0x100 / 0x100]
  }

  lemma WordParts(w: nat)
    requires w < WORD_LIMIT
    ensures w / 0x100 / 0x100 / 0x100 < 0x100
    ensures w == w % 0x100 + 0x100 * (w / 0x100 % 0x100)
              + 0x1_0000 * (w / 0x100 / 0x100 % 0x100) + 0x100_0000 * (w / 0x100 / 0x100 / 0x100)
  {}

  /** A stored word is read back, and storing it leaves every other word alone. */
  lemma PutGetWord(b: Block, i: nat, w: nat, j: nat)
    requires i < WORDS && j < WORDS && w < WORD_LIMIT
    ensures GetWord(PutWord(b, i, w), j) == if j == i then w else GetWord(b, j)
  {
    WordParts(w);
  }

  lemma ZeroWord(i: nat)
    requires i < WORDS
    ensures GetWord(Zero, i) == 0
  {}

  // ----- bitmap bits -----

  const BPB := 8192   // bits per block

  function Mask(k: nat): (m: nat)
    ensures m > 0
  {
    if k == 0 then 1 else 2 * Mask(k - 1)
  }

  /** x & (1 << k), for k < 8. */
  predicate Bit(x: nat, k: nat) {
    if k == 0 then x % 2 == 1 else Bit(x / 2, k - 1)
  }

  /** x | (1 << k) where that bit is clear. */
  function WithBit(x: nat, k: nat): (y: nat)
    requires !Bit(x, k)
    ensures y == x + Mask(k)
    ensures forall j: nat :: Bit(y, j) <==> j == k || Bit(x, j)
  {
    if k == 0 then x + 1 else 2 * WithBit(x / 2, k - 1) + x % 2
  }

  /** x & ~(1 << k) where that bit is set. */
  function WithoutBit(x: nat, k: nat): (y: nat)
    requires Bit(x, k)
    ensures y == x - Mask(k)
    ensures forall j: nat :: Bit(y, j) <==> j != k && Bit(x, j)
  {
    if k == 0 then x - 1 else 2 * WithoutBit(x / 2, k - 1) + x % 2
  }

  lemma {:induction false} WithBitBound(x: nat, k: nat, n: nat)
    requires k < n && x < Mask(n) && !Bit(x, k)
    ensures WithBit(x, k) < Mask(n)
  {
    assert Mask(n) == 2 * Mask(n - 1);
    if k > 0 { WithBitBound(x / 2, k - 1, n - 1); }
  }

  predicate GetBit(b: Block, i: nat)
    requires i < BPB
  {
    Bit(b[i / 8], i % 8)
  }

  /** `data[i/8] |= 1 << (i%8)`. */
  function SetBit(b: Block, i: nat): Block
    requires i < BPB
  {
    if GetBit(b, i) then b
    else
      assert Mask(8) == 256;
      WithBitBound(b[i / 8], i % 8, 8);
      b[i / 8 := WithBit(b[i / 8], i % 8)]
  }

  /** `data[i/8] &= ~(1 << (i%8))`. */
  function ClearBit(b: Block, i: nat): Block
    requires i < BPB
  {
    if GetBit(b, i) then b[i / 8 := WithoutBit(b[i / 8], i % 8)] else b
  }

  lemma {:induction false} NoBits(k: nat)
    ensures !Bit(0, k)
  {
    if k > 0 { NoBits(k - 1); }
  }

  lemma ZeroBit(i: nat)
    requires i < BPB
    ensures !GetBit(Zero, i)
  {
    NoBits(i % 8);
  }

  lemma SetGetBit(b: Block, i: nat, j: nat)
    requires i < BPB && j < BPB
    ensures GetBit(SetBit(b, i), j) <==> j == i || GetBit(b, j)
  {
    if j / 8 == i / 8 && j != i { assert j % 8 != i % 8; }
  }

  lemma ClearGetBit(b: Block, i: nat, j: nat)
    requires i < BPB && j < BPB
    ensures GetBit(ClearBit(b, i), j) <==> j != i && GetBit(b, j)
  {
    if j / 8 == i / 8 && j != i { assert j % 8 != i % 8; }
  }

  /** Where the bits are: bit i of the bitmap is worth 2^(i % 8) in byte i / 8. */
  lemma BitLayout(b: Block, i: nat)
    requires i < BPB
    ensures SetBit(b, i)[i / 8] as int == b[i / 8] as int + (if GetBit(b, i) then 0 else Mask(i % 8))
    ensures ClearBit(b, i)[i / 8] as int == b[i / 8] as int - (if GetBit(b, i) then Mask(i % 8) else 0)
    ensures forall x: nat :: x < BSIZE && x != i / 8 ==> SetBit(b, i)[x] == b[x] && ClearBit(b, i)[x] == b[x]
    ensures i % 8 == 0 ==> Mask(i % 8) == 1
    ensures i % 8 > 0 ==> Mask(i % 8) == 2 * Mask(i % 8 - 1)
  {
    assert Mask(8) == 256;
    if !GetBit(b, i) { WithBitBound(b[i / 8], i % 8, 8); }
  }
}
