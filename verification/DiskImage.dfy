/**
  Reading the raw disk: inode records, bitmap bits, and the image of a whole disk.
 */
module DiskImage {
  import opened DiskLayout

  /** The 38 words of an inode record: type (low half of word 0), size, atime,
      mtime, ctime, 32 direct block numbers and the indirect block number. */
  type Inode = s: seq<Word> | |s| == 38 witness seq(38, i => 0)

  const SIZE := 1
  const ATIME := 2
  const MTIME := 3
  const CTIME := 4
  const BLOCKS := 5
  const INDIRECT := 37                // BLOCKS + NDIRECT

  function TypeOf(ino: Inode): nat
  {
    ino[0] % 0x1_0000
  }

  /** CEIL(size, BLOCK_SIZE) */
  function BlockCount(size: nat): nat
  {
    size / BLOCK_SIZE + if size % BLOCK_SIZE != 0 then 1 else 0
  }

  function Words(blk: Block, lo: nat, hi: nat): (ws: seq<Word>)
    requires lo <= hi <= 128
    ensures |ws| == hi - lo
    ensures forall k | 0 <= k < hi - lo :: ws[k] == BlockWord(blk, lo + k)
    decreases hi - lo
  {
    if lo == hi then [] else [BlockWord(blk, lo)] + Words(blk, lo + 1, hi)
  }

  function InodeIn(blk: Block, slot: nat): (ino: Inode)
    requires slot < INODES_PER_BLOCK
    ensures forall k | 0 <= k < 38 :: ino[k] == BlockWord(blk, slot * 38 + k)
  {
    Words(blk, slot * 38, slot * 38 + 38)
  }

  function InodeOf(D: Disk, i: nat): Inode
    requires i < INODE_NUM
  {
    InodeIn(D[InodeBlock(i)], i % 3)
  }

  /** The disk with a record stored where inode i is looked up. */
  function RecordAt(D: Disk, i: nat, ino: Inode): Disk
    requires InodeBlock(i) < BLOCK_NUM
  {
    D[InodeBlock(i) := WithWords(D[InodeBlock(i)], i % 3 * 38, ino)]
  }

  function WithInode(D: Disk, i: nat, ino: Inode): Disk
    requires i < INODE_NUM
  {
    RecordAt(D, i, ino)
  }

  /** The bitmap bit of block b. */
  predicate Used(D: Disk, b: nat)
    requires InRegion(b)
  {
    BlockBit(D[BitmapBlock(b)], BitIndex(b))
  }

  function Marked(D: Disk, b: nat, on: bool): (E: Disk)
    requires b < BLOCK_NUM && Addressable(b)
    ensures forall c | InRegion(c) :: Used(E, c) == if c == b then on else Used(D, c)
    ensures forall k | InodeBlock(0) <= k < BLOCK_NUM :: E[k] == D[k]
  {
    D[BitmapBlock(b) := WithBlockBit(D[BitmapBlock(b)], BitIndex(b), on)]
  }

  // ----- the image of a disk -----

  /** What the store keeps on its disk: the inode records, the data blocks whose
      bit is set, and the data blocks. */
  datatype Image = Image(inodes: seq<Inode>, used: set<nat>, data: map<nat, Block>) {
    ghost predicate Shaped()
    {
      && |inodes| == INODE_NUM
      && (forall b | b in used :: InRegion(b))
      && (forall b: nat :: b in data <==> InRegion(b))
    }
  }

  /** Image and disk agree on inode k and on block k. */
  ghost predicate Agree(V: Image, D: Disk, k: nat)
    requires V.Shaped()
  {
    && (k < INODE_NUM ==> V.inodes[k] == InodeOf(D, k))
    && (InRegion(k) ==> (k in V.used <==> Used(D, k)) && V.data[k] == D[k])
  }

  ghost predicate Depicts(V: Image, D: Disk)
  {
    V.Shaped() && forall k: nat :: Agree(V, D, k)
  }

  ghost function ImageOf(D: Disk): (V: Image)
    ensures Depicts(V, D)
  {
    Image(seq<Inode>(INODE_NUM, i requires 0 <= i < INODE_NUM => InodeOf(D, i)),
          set b: nat | DATA_START <= b <= 4098 && Used(D, b),
          map b: nat | DATA_START <= b <= 4098 :: D[b])
  }

  /** A disk has one image. */
  lemma {:induction false} OneImage(V: Image, W: Image, D: Disk)
    requires Depicts(V, D) && Depicts(W, D)
    ensures V == W
  {
    forall k: nat | k < INODE_NUM ensures V.inodes[k] == W.inodes[k] {
      assert Agree(V, D, k) && Agree(W, D, k);
    }
    forall b: nat | InRegion(b) ensures (b in V.used <==> b in W.used) && V.data[b] == W.data[b] {
      assert Agree(V, D, b) && Agree(W, D, b);
    }
    assert V.used == W.used && V.data == W.data;
  }

  /** Writing one inode record changes that record and nothing else. */
  lemma {:induction false} ImageInode(V: Image, D: Disk, i: nat, ino: Inode)
    requires Depicts(V, D) && i < INODE_NUM
    ensures Depicts(V.(inodes := V.inodes[i := ino]), WithInode(D, i, ino))
  {
    var W, E := V.(inodes := V.inodes[i := ino]), WithInode(D, i, ino);
    forall k: nat ensures Agree(W, E, k) {
      assert Agree(V, D, k);
      if k < INODE_NUM { OneRecord(D, i, ino, k); }
      if InRegion(k) { assert BitmapBlock(k) < InodeBlock(0) <= InodeBlock(i) < k; }
    }
  }

  lemma {:induction false} OneRecord(D: Disk, i: nat, ino: Inode, j: nat)
    requires i < INODE_NUM && j < INODE_NUM
    ensures InodeOf(WithInode(D, i, ino), j) == if j == i then ino else InodeOf(D, j)
  {
    if j != i && InodeBlock(i) == InodeBlock(j) {
      assert i % 3 != j % 3;
    }
  }

  /** Setting or clearing one bit changes that bit and nothing else. */
  lemma {:induction false} ImageMark(V: Image, D: Disk, b: nat, on: bool)
    requires Depicts(V, D) && b < BLOCK_NUM && Addressable(b) && (on ==> InRegion(b))
    ensures Depicts(V.(used := if on then V.used + {b} else V.used - {b}), Marked(D, b, on))
  {
    var W, E := V.(used := if on then V.used + {b} else V.used - {b}), Marked(D, b, on);
    forall k: nat ensures Agree(W, E, k) {
      assert Agree(V, D, k);
      if k < INODE_NUM { assert InodeBlock(0) <= InodeBlock(k); }
    }
  }

  /** Writing one data block changes that block and nothing else. */
  lemma {:induction false} ImageWrite(V: Image, D: Disk, b: nat, blk: Block)
    requires Depicts(V, D) && DATA_START <= b < BLOCK_NUM
    ensures Depicts(if InRegion(b) then V.(data := V.data[b := blk]) else V, D[b := blk])
  {
    var W, E := if InRegion(b) then V.(data := V.data[b := blk]) else V, D[b := blk];
    forall k: nat ensures Agree(W, E, k) {
      assert Agree(V, D, k);
      if k < INODE_NUM { assert InodeBlock(k) < b; }
      if InRegion(k) { assert BitmapBlock(k) < b; }
    }
  }
}
