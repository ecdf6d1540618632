/**
  Reasoning about an operation on one file. While it runs, its blocks are the set
  `mine`; every other file keeps its inode and its blocks, and the bitmap is the
  blocks of the other files plus `mine`.
 */
module FileFrame {
  import opened DiskLayout
  import opened DiskImage
  import opened FileView

  /** What the operation has left alone, and what it holds, at inode k and block k. */
  ghost predicate FrameAt(V0: Image, V: Image, i: nat, mine: set<nat>, k: nat)
    requires FilesOk(V0) && V.Shaped()
  {
    && (k < INODE_NUM && k != i ==> V.inodes[k] == V0.inodes[k])
    && (InRegion(k) && OtherOwns(V0, i, k) ==> V.data[k] == V0.data[k])
    && (k in V.used <==> OtherOwns(V0, i, k) || k in mine)
    && (k in mine ==> InRegion(k) && !OtherOwns(V0, i, k))
  }

  ghost predicate Frame(V0: Image, V: Image, i: nat, mine: set<nat>)
    requires FilesOk(V0)
  {
    V.Shaped() && forall k: nat :: FrameAt(V0, V, i, mine, k)
  }

  lemma {:induction false} FrameStart(V: Image, i: nat)
    requires Valid(V) && Live(V, i)
    ensures Frame(V, V, i, LayoutOf(V, i).Blocks())
  {
    var mine := LayoutOf(V, i).Blocks();
    assert FileOk(V, i);
    forall b: nat ensures FrameAt(V, V, i, mine, b) {
      if b in V.used {
        var j :| Owns(V, j, b);
      }
      if b in mine {
        assert Owns(V, i, b);
      }
    }
  }

  /** A file that is not live owns nothing. */
  lemma {:induction false} FrameFresh(V: Image, i: nat)
    requires Valid(V) && !Live(V, i)
    ensures Frame(V, V, i, {})
  {
    forall b: nat ensures FrameAt(V, V, i, {}, b) {
      if b in V.used {
        var j :| Owns(V, j, b);
      }
    }
  }

  lemma {:induction false} FrameWrite(V0: Image, V: Image, i: nat, mine: set<nat>, b: nat, blk: Block)
    requires FilesOk(V0) && Frame(V0, V, i, mine) && b in mine
    ensures InRegion(b)
    ensures Frame(V0, V.(data := V.data[b := blk]), i, mine)
  {
    assert FrameAt(V0, V, i, mine, b);
    var W := V.(data := V.data[b := blk]);
    forall k: nat ensures FrameAt(V0, W, i, mine, k) {
      assert FrameAt(V0, V, i, mine, k);
    }
  }

  lemma {:induction false} FrameAlloc(V0: Image, V: Image, i: nat, mine: set<nat>, b: nat)
    requires FilesOk(V0) && Frame(V0, V, i, mine) && InRegion(b) && b !in V.used
    ensures Frame(V0, V.(used := V.used + {b}), i, mine + {b})
    ensures b !in mine
  {
    assert FrameAt(V0, V, i, mine, b);
    var W := V.(used := V.used + {b});
    forall k: nat ensures FrameAt(V0, W, i, mine + {b}, k) {
      assert FrameAt(V0, V, i, mine, k);
    }
  }

  lemma {:induction false} FrameFree(V0: Image, V: Image, i: nat, mine: set<nat>, b: nat)
    requires FilesOk(V0) && Frame(V0, V, i, mine) && b in mine
    ensures Frame(V0, V.(used := V.used - {b}), i, mine - {b})
  {
    assert FrameAt(V0, V, i, mine, b);
    var W := V.(used := V.used - {b});
    forall k: nat ensures FrameAt(V0, W, i, mine - {b}, k) {
      assert FrameAt(V0, V, i, mine, k);
    }
  }

  lemma {:induction false} FrameInode(V0: Image, V: Image, i: nat, mine: set<nat>, ino: Inode)
    requires FilesOk(V0) && Frame(V0, V, i, mine) && i < INODE_NUM
    ensures Frame(V0, V.(inodes := V.inodes[i := ino]), i, mine)
  {
    var W := V.(inodes := V.inodes[i := ino]);
    forall k: nat ensures FrameAt(V0, W, i, mine, k) {
      assert FrameAt(V0, V, i, mine, k);
    }
  }

  /** Another live file looks the same. */
  lemma {:induction false} OtherSame(V0: Image, V: Image, i: nat, mine: set<nat>, j: nat)
    requires FilesOk(V0) && Frame(V0, V, i, mine) && Live(V0, j) && j != i
    ensures V.inodes[j] == V0.inodes[j] && Live(V, j)
    ensures FileOk(V, j) && LayoutOf(V, j) == LayoutOf(V0, j)
    ensures Contents(V, j) == Contents(V0, j)
  {
    assert FileOk(V0, j);
    assert FrameAt(V0, V, i, mine, j);
    var ino := V.inodes[j];
    var lay := LayoutOf(V0, j);
    forall b | b in lay.Blocks() ensures V.data[b] == V0.data[b] {
      assert Owns(V0, j, b);
      assert OtherOwns(V0, i, b);
      assert FrameAt(V0, V, i, mine, b);
    }
    if lay.ind != 0 {
      assert lay.ind in lay.Blocks();
    }
    var n := BlockCount(ino[SIZE]);
    assert Ptrs(ino, IndirectOf(V, ino), n) == Ptrs(ino, IndirectOf(V0, ino), n);
    forall k | 0 <= k < |lay.ptrs| ensures V.data[lay.ptrs[k]] == V0.data[lay.ptrs[k]] {
      assert lay.ptrs[k] in lay.Blocks();
    }
  }

  /** The other files, and which files are live, after an operation on file i. */
  lemma {:induction false} OthersKept(V0: Image, E: Image, i: nat, mine: set<nat>)
    requires Valid(V0) && 0 < i < INODE_NUM && Frame(V0, E, i, mine)
    requires Live(E, i) ==> FileOk(E, i)
    ensures FilesOk(E)
    ensures forall j: nat | j != i :: Live(E, j) <==> Live(V0, j)
    ensures forall j: nat | j != i && Live(E, j) ::
              E.inodes[j] == V0.inodes[j] && LayoutOf(E, j) == LayoutOf(V0, j) && Contents(E, j) == Contents(V0, j)
  {
    forall j: nat | j != i
      ensures Live(E, j) <==> Live(V0, j)
      ensures Live(E, j) ==> FileOk(E, j) && E.inodes[j] == V0.inodes[j] && LayoutOf(E, j) == LayoutOf(V0, j) &&
                             Contents(E, j) == Contents(V0, j)
    {
      assert FrameAt(V0, E, i, mine, j);
      if Live(E, j) { OtherSame(V0, E, i, mine, j); }
    }
  }

  lemma {:induction false} ConservedEnd(V0: Image, E: Image, i: nat, mine: set<nat>)
    requires Valid(V0) && 0 < i < INODE_NUM && Frame(V0, E, i, mine) && FilesOk(E)
    requires forall j: nat, b: nat | j != i :: Owns(E, j, b) <==> Owns(V0, j, b)
    requires forall b: nat :: Owns(E, i, b) <==> b in mine
    ensures Conserved(E)
  {
    forall j: nat, k: nat, b: nat | j != k ensures !(Owns(E, j, b) && Owns(E, k, b)) {
      assert FrameAt(V0, E, i, mine, b);
      assert k != i ==> Owns(V0, k, b) ==> OtherOwns(V0, i, b) && OtherOwns(V0, j, b);
      assert j != i ==> Owns(V0, j, b) ==> OtherOwns(V0, i, b);
    }
    forall b: nat ensures b in E.used <==> exists j :: Owns(E, j, b) {
      assert FrameAt(V0, E, i, mine, b);
      if OtherOwns(V0, i, b) {
        var j :| j != i && Owns(V0, j, b);
        assert Owns(E, j, b);
      } else if b in mine {
        assert Owns(E, i, b);
      }
    }
  }

  /** The operation ends by writing the inode that lists its blocks. */
  lemma {:induction false} FrameEnd(V0: Image, V: Image, i: nat, ino: Inode, lay: Layout)
    requires Valid(V0) && 0 < i < INODE_NUM && Frame(V0, V, i, lay.Blocks()) && lay.Ok()
    requires TypeOf(ino) != 0 && ino[SIZE] <= MAXFILE * BLOCK_SIZE
    requires lay == Layout(Ptrs(ino, IndirectOf(V, ino), BlockCount(ino[SIZE])), ino[INDIRECT])
    ensures var E := V.(inodes := V.inodes[i := ino]);
            Valid(E) && Files(E) == Files(V0)[i := FileOf(ino, Text(V, lay.ptrs, ino[SIZE]))]
  {
    var E := V.(inodes := V.inodes[i := ino]);
    FrameInode(V0, V, i, lay.Blocks(), ino);
    assert LayoutOf(E, i) == lay;
    OthersKept(V0, E, i, lay.Blocks());
    ConservedEnd(V0, E, i, lay.Blocks());
    assert Contents(E, i) == Text(V, lay.ptrs, ino[SIZE]);
  }

  /** The operation ends by marking the inode free after giving up all blocks. */
  lemma {:induction false} FrameDead(V0: Image, V: Image, i: nat, ino: Inode)
    requires Valid(V0) && 0 < i < INODE_NUM && Frame(V0, V, i, {}) && TypeOf(ino) == 0
    ensures var E := V.(inodes := V.inodes[i := ino]);
            Valid(E) && Files(E) == Files(V0) - {i}
  {
    var E := V.(inodes := V.inodes[i := ino]);
    FrameInode(V0, V, i, {}, ino);
    OthersKept(V0, E, i, {});
    ConservedEnd(V0, E, i, {});
  }
}
