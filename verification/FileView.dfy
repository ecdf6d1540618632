/**
  What a disk image means: the block list of each file, who owns which block, and
  the map from inode numbers to file contents.
 */
module FileView {
  import opened DiskLayout
  import opened DiskImage

  predicate Live(V: Image, i: nat)
  {
    i < |V.inodes| && TypeOf(V.inodes[i]) != 0
  }

  /** The number of the k-th data block, given the inode and its indirect block. */
  function Ptr(ino: Inode, ind: Block, k: nat): Word
    requires k < MAXFILE
  {
    if k < NDIRECT then ino[BLOCKS + k] else BlockWord(ind, k - NDIRECT)
  }

  function Ptrs(ino: Inode, ind: Block, n: nat): (ps: seq<nat>)
    requires n <= MAXFILE
    ensures |ps| == n && forall k | 0 <= k < n :: ps[k] == Ptr(ino, ind, k)
  {
    seq(n, k requires 0 <= k < n => Ptr(ino, ind, k))
  }

  function IndirectOf(V: Image, ino: Inode): Block
  {
    if ino[INDIRECT] in V.data then V.data[ino[INDIRECT]] else ZeroBlock()
  }

  function Members(s: seq<nat>): set<nat>
  {
    set p | p in s
  }

  /** Block numbers of a file: its data blocks in order, and its indirect block,
      0 for none. */
  datatype Layout = Layout(ptrs: seq<nat>, ind: nat) {
    function Blocks(): set<nat>
    {
      Members(ptrs) + if ind != 0 then {ind} else {}
    }

    /** All blocks distinct and in the region. */
    ghost predicate Separate()
    {
      && |ptrs| <= MAXFILE
      && (forall k | 0 <= k < |ptrs| :: InRegion(ptrs[k]))
      && (forall k, l | 0 <= k < l < |ptrs| :: ptrs[k] != ptrs[l])
      && (ind != 0 ==> InRegion(ind) && ind !in ptrs)
    }

    /** An indirect block exactly for more than NDIRECT blocks. */
    ghost predicate Ok()
    {
      Separate() && (ind != 0 <==> |ptrs| > NDIRECT)
    }
  }

  function LayoutOf(V: Image, i: nat): Layout
    requires i < |V.inodes| && V.inodes[i][SIZE] <= MAXFILE * BLOCK_SIZE
  {
    var ino := V.inodes[i];
    Layout(Ptrs(ino, IndirectOf(V, ino), BlockCount(ino[SIZE])), ino[INDIRECT])
  }

  /** The first `size` bytes of the given blocks. */
  function Text(V: Image, ptrs: seq<nat>, size: nat): (t: seq<Byte>)
    requires BlockCount(size) <= |ptrs| && forall k | 0 <= k < |ptrs| :: ptrs[k] in V.data
    ensures |t| == size && forall p | 0 <= p < size :: t[p] == V.data[ptrs[p / BLOCK_SIZE]][p % BLOCK_SIZE]
  {
    seq(size, p requires 0 <= p < size => V.data[ptrs[p / BLOCK_SIZE]][p % BLOCK_SIZE])
  }

  ghost predicate FileOk(V: Image, i: nat)
    requires V.Shaped() && i < INODE_NUM
  {
    V.inodes[i][SIZE] <= MAXFILE * BLOCK_SIZE && LayoutOf(V, i).Ok()
  }

  ghost predicate FilesOk(V: Image)
  {
    V.Shaped() && !Live(V, 0) && forall i | Live(V, i) :: FileOk(V, i)
  }

  ghost predicate Owns(V: Image, i: nat, b: nat)
    requires FilesOk(V)
  {
    Live(V, i) && b in LayoutOf(V, i).Blocks()
  }

  /** Some live file other than `i` owns block b. */
  ghost predicate OtherOwns(V: Image, i: nat, b: nat)
    requires FilesOk(V)
  {
    exists j :: j != i && Owns(V, j, b)
  }

  /** Block conservation: no block belongs to two files, and the set bits are
      exactly the blocks of the live files. */
  ghost predicate Conserved(V: Image)
    requires FilesOk(V)
  {
    && (forall i, b | Owns(V, i, b) :: !OtherOwns(V, i, b))
    && (forall b :: b in V.used <==> exists i :: Owns(V, i, b))
  }

  ghost predicate Valid(V: Image)
  {
    FilesOk(V) && Conserved(V)
  }

  ghost function Contents(V: Image, i: nat): seq<Byte>
    requires V.Shaped() && i < INODE_NUM && FileOk(V, i)
  {
    Text(V, LayoutOf(V, i).ptrs, V.inodes[i][SIZE])
  }

  /** A file as its users see it: type, times and bytes. */
  datatype File = File(kind: nat, atime: Word, mtime: Word, ctime: Word, bytes: seq<Byte>)

  function FileOf(ino: Inode, bytes: seq<Byte>): File
  {
    File(TypeOf(ino), ino[ATIME], ino[MTIME], ino[CTIME], bytes)
  }

  /** The file system: a file for every live inode. */
  ghost function Files(V: Image): map<nat, File>
    requires FilesOk(V)
  {
    map i: nat | 0 <= i < INODE_NUM && Live(V, i) :: FileOf(V.inodes[i], Contents(V, i))
  }
}
