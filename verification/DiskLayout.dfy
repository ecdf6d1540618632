/**
  The disk layout: superblock, free-block bitmap, inode table, data. Blocks are
  512 raw bytes; bitmap bits, inode records and indirect blocks are read from and
  written into those bytes. 32-bit words are stored with the low byte first.
 */
module DiskLayout {
  const BLOCK_SIZE := 512
  const BLOCK_NUM := 32768
  const INODE_NUM := 1024
  const BITS_PER_BLOCK := 4096
  const INODE_WORDS := 38             // sizeof(struct inode) / 4
  const INODES_PER_BLOCK := 3         // BLOCK_SIZE / sizeof(struct inode)
  const NDIRECT := 32
  const NINDIRECT := 128
  const MAXFILE := 160                // NDIRECT + NINDIRECT

  type Byte = b: int | 0 <= b < 256
  type Word = w: int | 0 <= w < 0x1_0000_0000
  type Block = s: seq<Byte> | |s| == 512 witness seq(512, i => 0)
  type Disk = s: seq<Block> | |s| == 32768 witness seq<Block>(32768, i => ZeroBlock())

  /** Block containing inode i. */
  function InodeBlock(i: nat): nat
  {
    BLOCK_NUM / BITS_PER_BLOCK + i / INODES_PER_BLOCK + 3
  }

  /** Block containing the bit for block b. */
  function BitmapBlock(b: nat): nat
  {
    b / BITS_PER_BLOCK + 2
  }

  /** Position of the bit for block b inside its bitmap block. */
  function BitIndex(b: nat): int
  {
    b - BitmapBlock(b)
  }

  /** First block after the inode table. */
  const DATA_START := 353

  /** Data blocks whose bit lies inside the bitmap block that is read for it. */
  predicate InRegion(b: nat)
  {
    DATA_START <= b <= 4098
  }

  /** Blocks whose bit can be addressed at all. */
  predicate Addressable(b: nat)
  {
    0 <= BitIndex(b) < BITS_PER_BLOCK
  }

  /** Bitmap, inode table and data are disjoint stretches of the disk. */
  lemma {:induction false} Regions(b: nat, i: nat)
    requires b < BLOCK_NUM && i < INODE_NUM
    ensures 2 <= BitmapBlock(b) < InodeBlock(0) <= InodeBlock(i) < DATA_START
    ensures DATA_START == InodeBlock(INODE_NUM - 1) + 1
  {
  }

  /** The bit address is in range exactly up to block 4098, and no two blocks
      share a bit. */
  lemma {:induction false} BitAddress(b: nat, c: nat)
    requires DATA_START <= b < BLOCK_NUM && c < BLOCK_NUM
    ensures Addressable(b) <==> InRegion(b)
    ensures BitmapBlock(b) == BitmapBlock(c) && BitIndex(b) == BitIndex(c) ==> b == c
  {
  }

  // ----- bits -----

  function Pow2(n: nat): nat
  {
    if n == 0 then 1 else 2 * Pow2(n - 1)
  }

  /** x & (1 << k) is not zero. */
  predicate Bit(x: nat, k: nat)
  {
    if k == 0 then x % 2 == 1 else Bit(x / 2, k - 1)
  }

  /** x | (1 << k), or x & ~(1 << k), for a number of `width` bits. */
  function WithBit(x: nat, k: nat, on: bool, width: nat): (y: nat)
    requires k < width && x < Pow2(width)
    ensures y < Pow2(width)
    ensures forall j: nat :: Bit(y, j) == if j == k then on else Bit(x, j)
  {
    if k == 0 then x - x % 2 + (if on then 1 else 0)
    else 2 * WithBit(x / 2, k - 1, on, width - 1) + x % 2
  }

  predicate BlockBit(blk: Block, t: nat)
    requires t < BITS_PER_BLOCK
  {
    Bit(blk[t / 8], t % 8)
  }

  function WithBlockBit(blk: Block, t: nat, on: bool): (r: Block)
    requires t < BITS_PER_BLOCK
    ensures forall u | 0 <= u < BITS_PER_BLOCK :: BlockBit(r, u) == if u == t then on else BlockBit(blk, u)
  {
    assert Pow2(8) == 256;
    blk[t / 8 := WithBit(blk[t / 8], t % 8, on, 8)]
  }

  // ----- words -----

  function WordOf(a: Byte, b: Byte, c: Byte, d: Byte): Word
  {
    a + 0x100 * b + 0x1_0000 * c + 0x100_0000 * d
  }

  function BlockWord(blk: Block, k: nat): Word
    requires k < 128
  {
    WordOf(blk[4 * k], blk[4 * k + 1], blk[4 * k + 2], blk[4 * k + 3])
  }

  function WithWord(blk: Block, k: nat, w: Word): (r: Block)
    requires k < 128
    ensures forall j | 0 <= j < 128 :: BlockWord(r, j) == if j == k then w else BlockWord(blk, j)
  {
    var u := w / 0x100;
    var v := u / 0x100;
    blk[4 * k := w % 0x100][4 * k + 1 := u % 0x100][4 * k + 2 := v % 0x100][4 * k + 3 := v / 0x100]
  }

  function WithWords(blk: Block, base: nat, ws: seq<Word>): (r: Block)
    requires base + |ws| <= 128
    ensures forall j | 0 <= j < 128 ::
              BlockWord(r, j) == if base <= j < base + |ws| then ws[j - base] else BlockWord(blk, j)
    decreases |ws|
  {
    if ws == [] then blk else WithWords(WithWord(blk, base, ws[0]), base + 1, ws[1..])
  }

  /** The block with all bytes zero, as bzero leaves it. */
  function ZeroBlock(): Block
  {
    seq(512, i => 0)
  }
}
