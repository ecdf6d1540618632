/**
  The steps of an operation on one file, on disk images: overwrite a block, take a
  block, give one back. `Working` is what holds between the steps.
 */
module FileSteps {
  import opened DiskLayout
  import opened DiskImage
  import opened FileView
  import opened FileFrame

  /** The k-th block of a buffer. */
  function Chunk(mem: seq<Byte>, k: nat): Block
    requires BLOCK_SIZE * k + BLOCK_SIZE <= |mem|
  {
    mem[BLOCK_SIZE * k..BLOCK_SIZE * k + BLOCK_SIZE]
  }

  ghost predicate Holds(V: Image, ptrs: seq<nat>, mem: seq<Byte>)
  {
    && BLOCK_SIZE * |ptrs| <= |mem|
    && forall k | 0 <= k < |ptrs| :: ptrs[k] in V.data && V.data[ptrs[k]] == Chunk(mem, k)
  }

  lemma {:induction false} HoldsText(V: Image, ptrs: seq<nat>, mem: seq<Byte>, size: nat)
    requires Holds(V, ptrs, mem) && BlockCount(size) == |ptrs|
    ensures size <= |mem| && Text(V, ptrs, size) == mem[..size]
  {
    var t := Text(V, ptrs, size);
    forall p | 0 <= p < size ensures t[p] == mem[p] {
      var k := p / BLOCK_SIZE;
      assert V.data[ptrs[k]] == Chunk(mem, k);
    }
  }

  lemma {:induction false} TextBlock(V: Image, ptrs: seq<nat>, k: nat, r: nat)
    requires k < |ptrs| && r <= BLOCK_SIZE && forall l | 0 <= l < |ptrs| :: ptrs[l] in V.data
    ensures BlockCount(BLOCK_SIZE * k) <= |ptrs| && BlockCount(BLOCK_SIZE * k + r) <= |ptrs|
    ensures Text(V, ptrs, BLOCK_SIZE * k) + V.data[ptrs[k]][..r] == Text(V, ptrs, BLOCK_SIZE * k + r)
  {
    var s, t := Text(V, ptrs, BLOCK_SIZE * k) + V.data[ptrs[k]][..r], Text(V, ptrs, BLOCK_SIZE * k + r);
    forall p | 0 <= p < |t| ensures s[p] == t[p] {
      if p >= BLOCK_SIZE * k {
        assert p / BLOCK_SIZE == k && p % BLOCK_SIZE == p - BLOCK_SIZE * k;
      } else {
        assert p / BLOCK_SIZE < k;
      }
    }
  }

  // ----- free blocks -----

  ghost function FreeBlocks(V: Image): set<nat>
  {
    set b: nat | DATA_START <= b <= 4098 && b !in V.used
  }

  ghost function FreeCount(V: Image): nat
  {
    |FreeBlocks(V)|
  }

  lemma {:induction false} TakeOne(V: Image, b: nat)
    requires InRegion(b) && b !in V.used
    ensures FreeCount(V.(used := V.used + {b})) == FreeCount(V) - 1
  {
    assert FreeBlocks(V.(used := V.used + {b})) == FreeBlocks(V) - {b};
  }

  /** Blocks that a file of `bc` blocks takes when it grows to `n`. */
  function Need(bc: nat, n: nat): nat
  {
    if n <= bc then 0 else n - bc + if bc <= NDIRECT < n then 1 else 0
  }

  // ----- between the steps -----

  ghost predicate Working(V0: Image, V: Image, i: nat, lay: Layout)
  {
    FilesOk(V0) && Frame(V0, V, i, lay.Blocks()) && V.inodes == V0.inodes && lay.Separate()
  }

  lemma {:induction false} WorkStart(V: Image, i: nat)
    requires Valid(V) && Live(V, i)
    ensures V.inodes[i][SIZE] <= MAXFILE * BLOCK_SIZE && LayoutOf(V, i).Ok()
    ensures Working(V, V, i, LayoutOf(V, i))
  {
    assert FileOk(V, i);
    FrameStart(V, i);
  }

  lemma {:induction false} WorkWrite(V0: Image, V: Image, i: nat, lay: Layout, b: nat, blk: Block)
    requires Working(V0, V, i, lay) && b in lay.Blocks()
    ensures Working(V0, V.(data := V.data[b := blk]), i, lay)
  {
    FrameWrite(V0, V, i, lay.Blocks(), b, blk);
  }

  lemma {:induction false} WorkAlloc(V0: Image, V: Image, i: nat, lay: Layout, b: nat)
    requires Working(V0, V, i, lay) && |lay.ptrs| < MAXFILE && InRegion(b) && b !in V.used
    ensures Working(V0, V.(used := V.used + {b}), i, lay.(ptrs := lay.ptrs + [b]))
  {
    FrameAlloc(V0, V, i, lay.Blocks(), b);
    assert lay.(ptrs := lay.ptrs + [b]).Blocks() == lay.Blocks() + {b};
  }

  lemma {:induction false} WorkIndirect(V0: Image, V: Image, i: nat, lay: Layout, b: nat)
    requires Working(V0, V, i, lay) && lay.ind == 0 && InRegion(b) && b !in V.used
    ensures Working(V0, V.(used := V.used + {b}), i, lay.(ind := b))
  {
    FrameAlloc(V0, V, i, lay.Blocks(), b);
    assert lay.(ind := b).Blocks() == lay.Blocks() + {b};
  }

  lemma {:induction false} WorkFree(V0: Image, V: Image, i: nat, keep: seq<nat>, ptrs: seq<nat>, ind: nat)
    requires |ptrs| > 0 && Working(V0, V, i, Layout(keep + ptrs, ind))
    ensures Working(V0, V.(used := V.used - {ptrs[0]}), i, Layout(keep + ptrs[1..], ind))
  {
    var lay, rest := Layout(keep + ptrs, ind), Layout(keep + ptrs[1..], ind);
    assert lay.ptrs[|keep|] == ptrs[0];
    FrameFree(V0, V, i, lay.Blocks(), ptrs[0]);
    assert forall k | 0 <= k < |rest.ptrs| :: rest.ptrs[k] == lay.ptrs[if k < |keep| then k else k + 1];
    Without(keep, ptrs, ind);
  }

  lemma {:induction false} WorkFreeFirst(V0: Image, V: Image, i: nat, ptrs: seq<nat>, ind: nat)
    requires |ptrs| > 0 && Working(V0, V, i, Layout(ptrs, ind))
    ensures Working(V0, V.(used := V.used - {ptrs[0]}), i, Layout(ptrs[1..], ind))
  {
    assert [] + ptrs == ptrs && [] + ptrs[1..] == ptrs[1..];
    WorkFree(V0, V, i, [], ptrs, ind);
  }

  lemma {:induction false} Without(keep: seq<nat>, ptrs: seq<nat>, ind: nat)
    requires |ptrs| > 0 && Layout(keep + ptrs, ind).Separate()
    ensures Layout(keep + ptrs[1..], ind).Blocks() == Layout(keep + ptrs, ind).Blocks() - {ptrs[0]}
  {
    var lay, rest := Layout(keep + ptrs, ind), Layout(keep + ptrs[1..], ind);
    assert lay.ptrs[|keep|] == ptrs[0];
    forall k | 0 <= k < |rest.ptrs| ensures rest.ptrs[k] in lay.ptrs && rest.ptrs[k] != ptrs[0] {
      assert rest.ptrs[k] == lay.ptrs[if k < |keep| then k else k + 1];
    }
    forall k | 0 <= k < |lay.ptrs| && k != |keep| ensures lay.ptrs[k] in rest.ptrs {
      assert lay.ptrs[k] == rest.ptrs[if k < |keep| then k else k - 1];
    }
  }

  lemma {:induction false} WorkFreeIndirect(V0: Image, V: Image, i: nat, lay: Layout)
    requires Working(V0, V, i, lay) && lay.ind != 0
    ensures Working(V0, V.(used := V.used - {lay.ind}), i, lay.(ind := 0))
  {
    FrameFree(V0, V, i, lay.Blocks(), lay.ind);
    assert lay.(ind := 0).Blocks() == lay.Blocks() - {lay.ind};
  }

  /** Writing the inode that lists exactly the blocks held ends the operation. */
  lemma {:induction false} WorkEnd(V0: Image, V: Image, i: nat, ino: Inode, lay: Layout, mem: seq<Byte>)
    requires Valid(V0) && 0 < i < INODE_NUM && Working(V0, V, i, lay) && lay.Ok()
    requires TypeOf(ino) != 0 && ino[SIZE] <= MAXFILE * BLOCK_SIZE && BlockCount(ino[SIZE]) == |lay.ptrs|
    requires ino[INDIRECT] == lay.ind && lay.ptrs == Ptrs(ino, IndirectOf(V, ino), |lay.ptrs|)
    requires Holds(V, lay.ptrs, mem)
    ensures var E := V.(inodes := V.inodes[i := ino]);
            Valid(E) && Files(E) == Files(V0)[i := FileOf(ino, mem[..ino[SIZE]])]
  {
    HoldsText(V, lay.ptrs, mem, ino[SIZE]);
    FrameEnd(V0, V, i, ino, lay);
  }

  // ----- the in-memory block list -----

  /** Everything but the block list is the same. */
  predicate SameHead(a: Inode, b: Inode)
  {
    forall l | 0 <= l < BLOCKS :: a[l] == b[l]
  }

  /** Assigning the k-th block number in the inode or the indirect buffer. */
  function WithPtr(ino: Inode, ind: Block, k: nat, b: Word): (r: (Inode, Block))
    requires k < MAXFILE
    ensures forall l | 0 <= l < MAXFILE :: Ptr(r.0, r.1, l) == if l == k then b else Ptr(ino, ind, l)
    ensures forall l | 0 <= l < BLOCKS || l == INDIRECT :: r.0[l] == ino[l]
  {
    if k < NDIRECT then (ino[BLOCKS + k := b], ind) else (ino, WithWord(ind, k - NDIRECT, b))
  }
}
