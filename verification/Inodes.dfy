/** The on-disk inode: sixteen words of an inode block. */
module Inodes {
  import opened Blocks

  const NDIRECT := 12
  const NINDIRECT := 256
  const MAXFILE := 268      // blocks in the longest file
  const IPB := 16           // inodes per block
  const HALF := 0x1_0000

  datatype Inode = Inode(kind: nat, major: nat, minor: nat, nlink: nat, size: nat, addrs: seq<nat>) {
    /** The fields fit their C types. */
    ghost predicate Fits() {
      && kind < HALF && major < HALF && minor < HALF && nlink < HALF
      && size < WORD_LIMIT
      && |addrs| == NDIRECT + 1
      && forall i :: 0 <= i < |addrs| ==> addrs[i] < WORD_LIMIT
    }
  }

  /** Word i of struct dinode. */
  function InodeWord(ip: Inode, i: nat): (w: nat)
    requires ip.Fits() && i < 16
    ensures w < WORD_LIMIT
  {
    if i == 0 then ip.kind + HALF * ip.major
    else if i == 1 then ip.minor + HALF * ip.nlink
    else if i == 2 then ip.size
    else ip.addrs[i - 3]
  }

  /** Block blk with the first n words of inode slot k overwritten. */
  function PutInodeWords(blk: Block, k: nat, ip: Inode, n: nat): Block
    requires ip.Fits() && k < IPB && n <= 16
  {
    if n == 0 then blk else PutWord(PutInodeWords(blk, k, ip, n - 1), 16 * k + n - 1, InodeWord(ip, n - 1))
  }

  /** `iupdate`'s copy into the inode block. */
  function PutInode(blk: Block, k: nat, ip: Inode): Block
    requires ip.Fits() && k < IPB
  {
    PutInodeWords(blk, k, ip, 16)
  }

  /** Word i of inode slot k. */
  function SlotWord(blk: Block, k: nat, i: nat): nat
    requires k < IPB && i < 16
  {
    GetWord(blk, 16 * k + i)
  }

  function SlotAddrs(blk: Block, k: nat): (addrs: seq<nat>)
    requires k < IPB
    ensures |addrs| == NDIRECT + 1
    ensures forall i :: 0 <= i < |addrs| ==> addrs[i] == SlotWord(blk, k, 3 + i)
  {
    seq<nat>(NDIRECT + 1, (i: nat) requires i < NDIRECT + 1 => SlotWord(blk, k, 3 + i))
  }

  /** `ilock`'s copy out of the inode block. */
  function GetInode(blk: Block, k: nat): Inode
    requires k < IPB
  {
    Inode(SlotWord(blk, k, 0) % HALF, SlotWord(blk, k, 0) / HALF,
          SlotWord(blk, k, 1) % HALF, SlotWord(blk, k, 1) / HALF,
          SlotWord(blk, k, 2), SlotAddrs(blk, k))
  }

  lemma {:induction false} PutInodeWord(blk: Block, k: nat, ip: Inode, n: nat, w: nat)
    requires ip.Fits() && k < IPB && n <= 16 && w < WORDS
    ensures GetWord(PutInodeWords(blk, k, ip, n), w)
         == if 16 * k <= w < 16 * k + n then InodeWord(ip, w - 16 * k) else GetWord(blk, w)
  {
    if n > 0 {
      PutInodeWord(blk, k, ip, n - 1, w);
      PutGetWord(PutInodeWords(blk, k, ip, n - 1), 16 * k + n - 1, InodeWord(ip, n - 1), w);
    }
  }

  /** An inode stored in its slot is loaded back, and no other slot of the block changes. */
  lemma InodeRoundTrip(blk: Block, k: nat, ip: Inode, j: nat)
    requires ip.Fits() && k < IPB && j < IPB
    ensures GetInode(PutInode(blk, k, ip), j) == if j == k then ip else GetInode(blk, j)
  {
    hide PutInodeWords, PutWord, GetWord, SlotAddrs;
    var out := PutInode(blk, k, ip);
    forall i: nat | i < 16
      ensures SlotWord(out, j, i) == if j == k then InodeWord(ip, i) else SlotWord(blk, j, i)
    {
      PutInodeWord(blk, k, ip, 16, 16 * j + i);
    }
    assert SlotAddrs(out, j) == if j == k then ip.addrs else SlotAddrs(blk, j);
  }

  /** Bytes b and b + 1 as a 16-bit number. */
  function HalfAt(blk: Block, b: nat): nat
    requires b + 1 < BSIZE
  {
    blk[b] as int + 0x100 * (blk[b + 1] as int)
  }

  lemma Halves(blk: Block, w: nat, lo: nat, hi: nat)
    requires w < WORDS && lo < HALF && hi < HALF && GetWord(blk, w) == lo + HALF * hi
    ensures HalfAt(blk, 4 * w) == lo && HalfAt(blk, 4 * w + 2) == hi
  {
    assert GetWord(blk, w) == HalfAt(blk, 4 * w) + HALF * HalfAt(blk, 4 * w + 2);
  }

  /** The layout of struct dinode, byte by byte: four shorts, the size, thirteen addresses, 64
      bytes for each inode; nothing else in the block changes. */
  lemma InodeLayout(blk: Block, k: nat, ip: Inode)
    requires ip.Fits() && k < IPB
    ensures var out := PutInode(blk, k, ip);
            && HalfAt(out, 64 * k) == ip.kind && HalfAt(out, 64 * k + 2) == ip.major
            && HalfAt(out, 64 * k + 4) == ip.minor && HalfAt(out, 64 * k + 6) == ip.nlink
            && GetWord(out, 16 * k + 2) == ip.size
            && (forall i: nat :: i <= NDIRECT ==> GetWord(out, 16 * k + 3 + i) == ip.addrs[i])
            && forall w: nat :: w < WORDS && !(16 * k <= w < 16 * k + 16) ==> GetWord(out, w) == GetWord(blk, w)
  {
    hide PutInodeWords, PutWord, GetWord;
    var out := PutInode(blk, k, ip);
    forall w: nat | w < WORDS
      ensures GetWord(out, w) == if 16 * k <= w < 16 * k + 16 then InodeWord(ip, w - 16 * k) else GetWord(blk, w)
    {
      PutInodeWord(blk, k, ip, 16, w);
    }
    Halves(out, 16 * k, ip.kind, ip.major);
    Halves(out, 16 * k + 1, ip.minor, ip.nlink);
  }
}
