/**
  The inode manager over its in-memory disk. `view` is the image of the disk; every
  operation is specified by what it does to the image and to the files.
 */
module InodeStore {
  import opened Common
  import opened DiskLayout
  import opened DiskImage
  import opened FileView
  import opened FileFrame
  import opened FileSteps

  const T_DIR := 1

  class Store {
    const d: array<Block>
    ghost var view: Image

    ghost predicate Linked()
      reads this, d
    {
      d.Length == BLOCK_NUM && Depicts(view, d[..])
    }

    ghost predicate Ok()
      reads this, d
    {
      Linked() && Valid(view)
    }

    /** A formatted disk: zeroed, with an empty root directory as inode 1. */
    constructor (now: Word)
      ensures Ok() && fresh(d)
      ensures Files(view) == map[1 := File(T_DIR, 0, now, now, [])]
    {
      d := new Block[BLOCK_NUM](i => ZeroBlock());
      new;
      view := ImageOf(d[..]);
      Format(now);
    }

    method Format(now: Word)
      requires Linked() && forall b | 0 <= b < BLOCK_NUM :: Blank(d[b])
      modifies `view, d
      ensures Ok() && Files(view) == map[1 := File(T_DIR, 0, now, now, [])]
    {
      BlankDisk(view, d[..]);
      assert 1 !in Files(view) && view.inodes[1][ATIME] == 0;
      var root := AllocInode(T_DIR, now);
      assert root == 1;
    }

    // ----- blocks -----

    /** Takes the first free block. The scan runs off the bitmap exactly when every
        block it can address is taken; that outcome is `!ok`. */
    method AllocBlock() returns (ok: bool, b: nat)
      requires Linked()
      modifies `view, d
      ensures Linked()
      ensures ok <==> FreeCount(old(view)) > 0
      ensures ok ==> InRegion(b) && b !in old(view).used && view == old(view).(used := old(view).used + {b})
      ensures ok ==> forall c: nat | DATA_START <= c < b :: c in old(view).used
      ensures !ok ==> view == old(view)
    {
      b := InodeBlock(INODE_NUM - 1) + 1;
      while b <= 4098
        invariant DATA_START <= b <= 4099 && view == old(view) && d[..] == old(d[..])
        invariant forall c: nat | DATA_START <= c < b :: c in view.used
      {
        var bits, t := d[BitmapBlock(b)], BitIndex(b);
        assert Agree(view, d[..], b);
        if !BlockBit(bits, t) {
          ImageMark(view, d[..], b, true);
          assert b in FreeBlocks(view);
          d[BitmapBlock(b)] := WithBlockBit(bits, t, true);
          assert d[..] == Marked(old(d[..]), b, true);
          view := view.(used := view.used + {b});
          return true, b;
        }
        b := b + 1;
      }
      assert FreeBlocks(view) == {};
      ok := false;
    }

    /** Clears the bit of a block; a block outside the data region has a bit of its own
        that no file depends on. */
    method FreeBlock(b: nat)
      requires Linked() && b < BLOCK_NUM && Addressable(b)
      modifies `view, d
      ensures Linked() && view == old(view).(used := old(view).used - {b})
    {
      ImageMark(view, d[..], b, false);
      d[BitmapBlock(b)] := WithBlockBit(d[BitmapBlock(b)], BitIndex(b), false);
      assert d[..] == Marked(old(d[..]), b, false);
      view := view.(used := view.used - {b});
    }

    /** Replaces a block; a number beyond the disk is ignored. */
    method WriteBlock(b: nat, blk: Block)
      requires Linked()
      modifies `view, d
      ensures Linked() && d[..] == if b < BLOCK_NUM then old(d[..])[b := blk] else old(d[..])
      ensures InRegion(b) ==> view == old(view).(data := old(view).data[b := blk])
      ensures b > 4098 ==> view == old(view)
    {
      if b < BLOCK_NUM {
        if DATA_START <= b { ImageWrite(view, d[..], b, blk); }
        d[b] := blk;
        assert d[..] == old(d[..])[b := blk];
      }
      view := if InRegion(b) then view.(data := view.data[b := blk])
              else if b > 4098 then view else ImageOf(d[..]);
    }

    // ----- inodes -----

    method GetInode(inum: nat) returns (r: Option<Inode>)
      requires Linked()
      ensures r == if Live(view, inum) then Some(view.inodes[inum]) else None
    {
      if inum >= INODE_NUM {
        return None;
      }
      var ino := InodeIn(d[InodeBlock(inum)], inum % INODES_PER_BLOCK);
      assert Agree(view, d[..], inum);
      return if TypeOf(ino) == 0 then None else Some(ino);
    }

    /** Replaces the record of an inode. A number beyond the table lands in a data block,
        or beyond the disk and is ignored. */
    method PutInode(inum: nat, ino: Inode)
      requires Linked()
      modifies `view, d
      ensures Linked()
      ensures inum < INODE_NUM ==> view == old(view).(inodes := old(view).inodes[inum := ino])
      ensures d[..] == if InodeBlock(inum) < BLOCK_NUM then RecordAt(old(d[..]), inum, ino) else old(d[..])
    {
      var b := InodeBlock(inum);
      if b < BLOCK_NUM {
        if inum < INODE_NUM { ImageInode(view, d[..], inum, ino); }
        d[b] := WithWords(d[b], inum % INODES_PER_BLOCK * INODE_WORDS, ino);
        assert d[..] == RecordAt(old(d[..]), inum, ino);
      }
      view := if inum < INODE_NUM then view.(inodes := view.inodes[inum := ino]) else ImageOf(d[..]);
    }

    /** Record j of table block i. */
    method InodeAt(i: nat, j: nat) returns (ino: Inode)
      requires Linked() && j < INODES_PER_BLOCK && i * INODES_PER_BLOCK + j < INODE_NUM
      ensures ino == view.inodes[i * INODES_PER_BLOCK + j]
    {
      Slot(i, j);
      assert Agree(view, d[..], i * INODES_PER_BLOCK + j);
      ino := InodeIn(d[i + InodeBlock(0)], j);
    }

    method SlotFree(i: nat, j: nat) returns (free: bool)
      requires Linked() && j < INODES_PER_BLOCK && 3 * i + j < INODE_NUM
      ensures free <==> !Live(view, 3 * i + j)
    {
      var ino := InodeAt(i, j);
      free := TypeOf(ino) == 0;
    }

    method TakeInode(n: nat, kind: Word, now: Word)
      requires Ok() && 0 < n < INODE_NUM && !Live(view, n)
      modifies `view, d
      ensures Ok() && view.used == old(view).used && TypeOf(view.inodes[n]) == kind % 0x1_0000
      ensures Files(view) == Created(old(view), n, kind, now)
      ensures view.inodes == old(view).inodes[n := NewInode(old(view).inodes[n], kind, now)]
    {
      var ino := InodeAt(n / INODES_PER_BLOCK, n % INODES_PER_BLOCK);
      PutInode(n, NewInode(ino, kind, now));
      NewFile(old(view), n, kind, now);
    }

    /** The first free inode from 1 on; 0 when there is none. */
    method FirstFree() returns (inum: nat)
      requires Linked()
      ensures inum == 0 ==> forall i | 0 < i < INODE_NUM :: Live(view, i)
      ensures inum != 0 ==> inum < INODE_NUM && !Live(view, inum) && forall i | 0 < i < inum :: Live(view, i)
    {
      var i := 0;
      while i < INODE_NUM / INODES_PER_BLOCK + 1
        invariant 0 <= i <= 342
        invariant forall n | 0 < n < 3 * i && n < INODE_NUM :: Live(view, n)
      {
        var found, n := FirstFreeIn(i);
        if found || n >= INODE_NUM {
          return if found then n else 0;
        }
        i := i + 1;
      }
      inum := 0;
    }

    /** One table block: the first free inode in it, or where the scan ends. */
    method FirstFreeIn(i: nat) returns (found: bool, n: nat)
      requires Linked() && i < 342
      ensures found ==> 3 * i <= n < INODE_NUM && n != 0 && !Live(view, n)
      ensures !found ==> n == if 3 * i + 3 < INODE_NUM then 3 * i + 3 else INODE_NUM
      ensures forall k | 3 * i <= k < n && k != 0 :: Live(view, k)
    {
      var j := 0;
      while j < INODES_PER_BLOCK
        invariant 0 <= j <= 3 && 3 * i + j <= INODE_NUM
        invariant forall k | 3 * i <= k < 3 * i + j && k != 0 :: Live(view, k)
      {
        n := j + i * INODES_PER_BLOCK;
        if n >= INODE_NUM {
          return false, n;
        }
        var free := SlotFree(i, j);
        if n != 0 && free {
          return true, n;
        }
        j := j + 1;
      }
      return false, 3 * i + 3;
    }

    /** Takes the first free inode. The type is cut to 16 bits, and a type that
        becomes 0 creates no file. */
    method AllocInode(kind: Word, now: Word) returns (inum: nat)
      requires Ok()
      modifies `view, d
      ensures Ok()
      ensures inum == 0 <==> forall i | 0 < i < INODE_NUM :: Live(old(view), i)
      ensures inum != 0 ==> inum < INODE_NUM && !Live(old(view), inum)
      ensures inum != 0 ==> forall i | 0 < i < inum :: Live(old(view), i)
      ensures Files(view) == if inum != 0 then Created(old(view), inum, kind, now) else Files(old(view))
      ensures inum == 0 ==> view == old(view)
      ensures inum != 0 ==> view.used == old(view).used && TypeOf(view.inodes[inum]) == kind % 0x1_0000
    {
      inum := FirstFree();
      if inum != 0 {
        TakeInode(inum, kind, now);
      }
    }

    method FreeInode(inum: nat, now: Word)
      requires Linked()
      modifies `view, d
      ensures Linked()
      ensures view == if Live(old(view), inum)
                      then old(view).(inodes := old(view).inodes[inum := Freed(old(view).inodes[inum], now)])
                      else old(view)
    {
      var g := GetInode(inum);
      if g.Some? {
        PutInode(inum, Freed(g.value, now));
      }
    }

    // ----- files -----

    /** The type, size and times that are recorded, whether or not the inode is live. A
        number beyond the table reads whatever stands there. */
    method GetAttr(inum: nat) returns (kind: nat, size: Word, atime: Word, mtime: Word, ctime: Word)
      requires Linked() && InodeBlock(inum) < BLOCK_NUM
      ensures inum < INODE_NUM ==>
                var ino := view.inodes[inum];
                && kind == TypeOf(ino) && size == ino[SIZE]
                && (atime, mtime, ctime) == (ino[ATIME], ino[MTIME], ino[CTIME])
      ensures Valid(view) && inum in Files(view) ==>
                && Files(view)[inum] == File(kind, atime, mtime, ctime, Files(view)[inum].bytes)
                && size == |Files(view)[inum].bytes|
    {
      var ino := InodeIn(d[InodeBlock(inum)], inum % INODES_PER_BLOCK);
      assert inum < INODE_NUM ==> Agree(view, d[..], inum);
      kind, size, atime, mtime, ctime := TypeOf(ino), ino[SIZE], ino[ATIME], ino[MTIME], ino[CTIME];
    }

    /** The contents of a live file; reading a non-empty file stamps its atime. */
    method ReadFile(inum: nat, now: Word) returns (r: Option<seq<Byte>>)
      requires Ok()
      modifies `view, d
      ensures Ok()
      ensures Files(view) == if inum in Files(old(view)) && Files(old(view))[inum].bytes != []
                             then Files(old(view))[inum := Files(old(view))[inum].(atime := now)] else Files(old(view))
      ensures r == if inum in Files(old(view)) then Some(Files(old(view))[inum].bytes) else None
      ensures view.used == old(view).used && view.data == old(view).data
    {
      var g := GetInode(inum);
      if g.None? {
        return None;
      }
      var ino := g.value;
      WorkStart(view, inum);
      var size := ino[SIZE];
      if size == 0 {
        return Some([]);
      }
      var text := ReadBlocks(inum, ino);
      PutInode(inum, ino[ATIME := now]);
      Stamped(old(view), inum, now);
      return Some(text);
    }

    /** All blocks but the last in full, then the used part of the last one. */
    method ReadBlocks(ghost inum: nat, ino: Inode) returns (text: seq<Byte>)
      requires Linked() && inum < INODE_NUM && FileOk(view, inum)
      requires ino == view.inodes[inum] && ino[SIZE] != 0
      ensures text == Contents(view, inum)
    {
      ghost var ptrs := LayoutOf(view, inum).ptrs;
      var ind := ReadIndirect(ino, inum);
      var bc, k := BlockCount(ino[SIZE]), 0;
      text := [];
      while k < bc - 1
        invariant 0 <= k <= bc - 1 && text == Text(view, ptrs, BLOCK_SIZE * k)
      {
        TextBlock(view, ptrs, k, BLOCK_SIZE);
        assert Agree(view, d[..], ptrs[k]);
        text := text + d[Ptr(ino, ind, k)];
        k := k + 1;
      }
      var r := if ino[SIZE] % BLOCK_SIZE != 0 then ino[SIZE] % BLOCK_SIZE else BLOCK_SIZE;
      TextBlock(view, ptrs, k, r);
      assert Agree(view, d[..], ptrs[k]);
      text := text + d[Ptr(ino, ind, k)][..r];
    }

    /** The indirect buffer: read only for files of more than NDIRECT blocks. */
    method ReadIndirect(ino: Inode, ghost inum: nat) returns (ind: Block)
      requires Linked() && inum < INODE_NUM && FileOk(view, inum) && ino == view.inodes[inum]
      ensures LayoutOf(view, inum).ptrs == Ptrs(ino, ind, BlockCount(ino[SIZE]))
      ensures BlockCount(ino[SIZE]) > NDIRECT ==> ind == view.data[ino[INDIRECT]]
    {
      ind := ZeroBlock();
      if BlockCount(ino[SIZE]) > NDIRECT {
        assert Agree(view, d[..], ino[INDIRECT]);
        ind := d[ino[INDIRECT]];
      }
    }

    /** Replaces the contents of a file. `beyond` is whatever follows `buf` in memory:
        whole blocks are copied, so the last one may read past `buf`. `!ok` when the
        block list or the bitmap overflows. */
    method WriteFile(inum: nat, buf: seq<Byte>, beyond: seq<Byte>, now: Word) returns (ok: bool)
      requires Ok() && |buf| + |beyond| >= BLOCK_SIZE * BlockCount(|buf|)
      modifies `view, d
      ensures Linked()
      ensures !Live(old(view), inum) ==> ok && view == old(view)
      ensures Live(old(view), inum) ==>
                (ok <==> && BlockCount(|buf|) <= MAXFILE
                         && Need(BlockCount(|Files(old(view))[inum].bytes|), BlockCount(|buf|)) <= FreeCount(old(view)))
      ensures ok && Live(old(view), inum) ==>
                && Ok()
                && var was := Files(old(view));
                   Files(view) == was[inum := was[inum].(bytes := buf, mtime := now, ctime := now)]
    {
      var g := GetInode(inum);
      if g.None? {
        return true;
      }
      var ino, mem := g.value, buf + beyond;
      ghost var V0 := view;
      WorkStart(V0, inum);
      var bc, n := BlockCount(ino[SIZE]), BlockCount(|buf|);
      ghost var lay := LayoutOf(V0, inum);
      var ind := ReadIndirect(ino, inum);
      Overwrite(ino, ind, if n < bc then n else bc, mem, V0, inum, lay);
      ok := true;
      if n < bc {
        ino := Shrink(ino, ind, n, bc, V0, inum, lay);
        lay := Layout(lay.ptrs[..n], if n > NDIRECT then lay.ind else 0);
      } else if n > bc {
        ok, ino, lay := Grow(ino, ind, bc, n, mem, V0, inum, lay);
        if !ok {
          return;
        }
      }
      assert mem[..|buf|] == buf;
      Finish(inum, ino, |buf|, now, mem, V0, lay);
    }

    method Finish(inum: nat, ino0: Inode, size: nat, now: Word,
                  ghost mem: seq<Byte>, ghost V0: Image, ghost lay: Layout)
      requires Linked() && Valid(V0) && Live(V0, inum) && Working(V0, view, inum, lay) && lay.Ok()
      requires SameHead(ino0, V0.inodes[inum]) && BlockCount(size) == |lay.ptrs| && Holds(view, lay.ptrs, mem)
      requires ino0[INDIRECT] == lay.ind && lay.ptrs == Ptrs(ino0, IndirectOf(view, ino0), |lay.ptrs|)
      modifies `view, d
      ensures Ok() && size <= |mem|
      ensures Files(view) == Files(V0)[inum := Files(V0)[inum].(bytes := mem[..size], mtime := now, ctime := now)]
    {
      var ino := ino0[MTIME := now][CTIME := now][SIZE := size];
      assert lay.ptrs == Ptrs(ino, IndirectOf(view, ino), |lay.ptrs|);
      HoldsText(view, lay.ptrs, mem, size);
      WorkEnd(V0, view, inum, ino, lay, mem);
      PutInode(inum, ino);
    }

    method Overwrite(ino: Inode, ind: Block, m: nat, mem: seq<Byte>, ghost V0: Image, ghost i: nat, ghost lay: Layout)
      requires Linked() && Working(V0, view, i, lay)
      requires m <= |lay.ptrs| && BLOCK_SIZE * m <= |mem| && lay.ptrs == Ptrs(ino, ind, |lay.ptrs|)
      modifies `view, d
      ensures Linked() && Working(V0, view, i, lay) && view.used == old(view).used
      ensures Holds(view, lay.ptrs[..m], mem)
      ensures lay.ind != 0 ==> view.data[lay.ind] == old(view).data[lay.ind]
    {
      var k := 0;
      while k < m
        invariant 0 <= k <= m && Linked() && Working(V0, view, i, lay) && view.used == old(view).used
        invariant Holds(view, lay.ptrs[..k], mem)
        invariant lay.ind != 0 ==> view.data[lay.ind] == old(view).data[lay.ind]
      {
        ghost var p := lay.ptrs[k];
        assert p in lay.Blocks();
        WorkWrite(V0, view, i, lay, p, Chunk(mem, k));
        WriteBlock(Ptr(ino, ind, k), Chunk(mem, k));
        k := k + 1;
      }
    }

    /** Gives back the blocks from n on, and the indirect block when it is no longer
        needed. The indirect block on disk keeps its stale entries. */
    method Shrink(ino0: Inode, ind0: Block, n: nat, bc: nat, ghost V0: Image, ghost i: nat, ghost lay: Layout)
      returns (ino: Inode)
      requires Linked() && Working(V0, view, i, lay) && lay.Ok() && n < bc == |lay.ptrs|
      requires lay.ptrs == Ptrs(ino0, ind0, bc) && ino0[INDIRECT] == lay.ind
      modifies `view, d
      ensures Linked() && view.data == old(view).data
      ensures Working(V0, view, i, Layout(lay.ptrs[..n], if n > NDIRECT then lay.ind else 0))
      ensures SameHead(ino, ino0) && ino[INDIRECT] == if n > NDIRECT then lay.ind else 0
      ensures forall k | 0 <= k < n && k < NDIRECT :: ino[BLOCKS + k] == lay.ptrs[k]
    {
      ino := FreeTail(ino0, ind0, n, bc, V0, i, lay);
      if bc > NDIRECT && n <= NDIRECT {
        WorkFreeIndirect(V0, view, i, Layout(lay.ptrs[..n], lay.ind));
        FreeBlock(ino[INDIRECT]);
        ino := ino[INDIRECT := 0];
      }
    }

    method FreeTail(ino0: Inode, ind0: Block, n: nat, bc: nat, ghost V0: Image, ghost i: nat, ghost lay: Layout)
      returns (ino: Inode)
      requires Linked() && Working(V0, view, i, lay) && n < bc == |lay.ptrs|
      requires lay.ptrs == Ptrs(ino0, ind0, bc) && ino0[INDIRECT] == lay.ind
      modifies `view, d
      ensures Linked() && view.data == old(view).data
      ensures Working(V0, view, i, Layout(lay.ptrs[..n], lay.ind))
      ensures SameHead(ino, ino0) && ino[INDIRECT] == lay.ind
      ensures forall k | 0 <= k < n && k < NDIRECT :: ino[BLOCKS + k] == lay.ptrs[k]
    {
      ino := ino0;
      var ind, k := ind0, n;
      assert lay.ptrs[..n] + lay.ptrs[n..] == lay.ptrs;
      while k < bc
        invariant n <= k <= bc && Linked() && view.data == old(view).data
        invariant Working(V0, view, i, Layout(lay.ptrs[..n] + lay.ptrs[k..], lay.ind))
        invariant forall l | 0 <= l < n || k <= l < bc :: Ptr(ino, ind, l) == lay.ptrs[l]
        invariant SameHead(ino, ino0) && ino[INDIRECT] == lay.ind
      {
        WorkFree(V0, view, i, lay.ptrs[..n], lay.ptrs[k..], lay.ind);
        assert lay.ptrs[k..][1..] == lay.ptrs[k + 1..];
        FreeBlock(Ptr(ino, ind, k));
        var r := WithPtr(ino, ind, k, 0);
        ino, ind := r.0, r.1;
        k := k + 1;
      }
      assert lay.ptrs[..n] + lay.ptrs[bc..] == lay.ptrs[..n];
      assert forall l | 0 <= l < n && l < NDIRECT :: Ptr(ino, ind, l) == lay.ptrs[l];
    }

    /** Takes the blocks from bc on and fills them; takes an indirect block first when
        the file outgrows its direct entries. */
    method Grow(ino0: Inode, ind0: Block, bc: nat, n: nat, mem: seq<Byte>,
                ghost V0: Image, ghost i: nat, ghost lay0: Layout)
      returns (ok: bool, ino: Inode, ghost lay: Layout)
      requires Linked() && Working(V0, view, i, lay0) && lay0.Ok() && |lay0.ptrs| == bc < n
      requires lay0.ptrs == Ptrs(ino0, ind0, bc) && ino0[INDIRECT] == lay0.ind
      requires BLOCK_SIZE * n <= |mem| && Holds(view, lay0.ptrs, mem)
      modifies `view, d
      ensures Linked()
      ensures ok <==> n <= MAXFILE && Need(bc, n) <= FreeCount(old(view))
      ensures ok ==> Working(V0, view, i, lay) && lay.Ok() && |lay.ptrs| == n && SameHead(ino, ino0)
      ensures ok ==> lay.ind == ino[INDIRECT] && lay.ptrs == Ptrs(ino, IndirectOf(view, ino), n)
      ensures ok ==> Holds(view, lay.ptrs, mem)
    {
      ino, lay := ino0, lay0;
      var ind := ind0;
      ghost var free := FreeCount(view);
      if bc <= NDIRECT && n > NDIRECT {
        var b;
        ghost var V := view;
        ok, b := AllocBlock();
        if !ok {
          return;
        }
        TakeOne(V, b);
        WorkIndirect(V0, V, i, lay, b);
        ino, ind, lay, free := ino[INDIRECT := b], ZeroBlock(), lay.(ind := b), free - 1;
      }
      ok, ino, ind, lay := Extend(ino, ind, bc, n, mem, V0, i, lay);
      if ok && ino[INDIRECT] != 0 {
        WorkWrite(V0, view, i, lay, lay.ind, ind);
        WriteBlock(ino[INDIRECT], ind);
      }
    }

    method Extend(ino0: Inode, ind0: Block, bc: nat, n: nat, mem: seq<Byte>,
                  ghost V0: Image, ghost i: nat, ghost lay0: Layout)
      returns (ok: bool, ino: Inode, ind: Block, ghost lay: Layout)
      requires Linked() && Working(V0, view, i, lay0) && |lay0.ptrs| == bc < n
      requires lay0.ptrs == Ptrs(ino0, ind0, bc)
      requires BLOCK_SIZE * n <= |mem| && Holds(view, lay0.ptrs, mem)
      modifies `view, d
      ensures Linked()
      ensures ok <==> n <= MAXFILE && n - bc <= FreeCount(old(view))
      ensures ok ==> Working(V0, view, i, lay) && |lay.ptrs| == n && lay.ind == lay0.ind
      ensures ok ==> SameHead(ino, ino0) && ino[INDIRECT] == ino0[INDIRECT]
      ensures ok ==> lay.ptrs == Ptrs(ino, ind, n) && Holds(view, lay.ptrs, mem)
    {
      ino, ind, lay := ino0, ind0, lay0;
      var k := bc;
      while k < n
        invariant bc <= k <= n && k <= MAXFILE && Linked() && Working(V0, view, i, lay)
        invariant |lay.ptrs| == k && lay.ind == lay0.ind && lay.ptrs == Ptrs(ino, ind, k)
        invariant Holds(view, lay.ptrs, mem) && FreeCount(view) == FreeCount(old(view)) - (k - bc)
        invariant SameHead(ino, ino0) && ino[INDIRECT] == ino0[INDIRECT]
      {
        var b;
        ghost var V := view;
        ok, b := AllocBlock();
        if !ok || k == MAXFILE {
          ok := false;
          return;
        }
        TakeOne(V, b);
        WorkAlloc(V0, V, i, lay, b);
        var r := WithPtr(ino, ind, k, b);
        ghost var next := lay.(ptrs := lay.ptrs + [b]);
        assert next.ptrs == Ptrs(r.0, r.1, k + 1);
        assert next.ptrs[k] == b;
        WorkWrite(V0, view, i, next, b, Chunk(mem, k));
        WriteBlock(b, Chunk(mem, k));
        ino, ind, lay, k := r.0, r.1, next, k + 1;
      }
      ok := true;
    }

    /** Gives back every block and the inode. */
    method RemoveFile(inum: nat, now: Word)
      requires Ok()
      modifies `view, d
      ensures Ok() && Files(view) == Files(old(view)) - {inum}
    {
      var g := GetInode(inum);
      if g.None? {
        return;
      }
      WorkStart(view, inum);
      FreeAll(inum, g.value);
      assert Layout([], 0).Blocks() == {};
      FrameDead(old(view), view, inum, Freed(g.value, now));
      FreeInode(inum, now);
    }

    /** The indirect block first, then the data blocks in order. */
    method FreeAll(inum: nat, ino: Inode)
      requires Linked() && Valid(view) && Live(view, inum) && FileOk(view, inum) && ino == view.inodes[inum]
      requires Working(view, view, inum, LayoutOf(view, inum))
      modifies `view, d
      ensures Linked() && Working(old(view), view, inum, Layout([], 0))
    {
      ghost var lay := LayoutOf(view, inum);
      var ind := ReadIndirect(ino, inum);
      var bc, k := BlockCount(ino[SIZE]), 0;
      if bc > NDIRECT {
        WorkFreeIndirect(view, view, inum, lay);
        FreeBlock(ino[INDIRECT]);
      }
      assert lay.ptrs[0..] == lay.ptrs;
      while k < bc
        invariant 0 <= k <= bc && Linked() && Working(old(view), view, inum, Layout(lay.ptrs[k..], 0))
      {
        WorkFreeFirst(old(view), view, inum, lay.ptrs[k..], 0);
        assert lay.ptrs[k..][1..] == lay.ptrs[k + 1..];
        FreeBlock(Ptr(ino, ind, k));
        k := k + 1;
      }
      assert lay.ptrs[bc..] == [];
    }
  }

  /** A record marked free; its size and block list stay as they were. */
  function Freed(ino: Inode, now: Word): (r: Inode)
    ensures TypeOf(r) == 0 && r[MTIME] == now && r[CTIME] == now
    ensures forall l | 0 < l < 38 && l != MTIME && l != CTIME :: r[l] == ino[l]
  {
    ino[0 := ino[0] - ino[0] % 0x1_0000][MTIME := now][CTIME := now]
  }

  lemma {:induction false} Stamped(V: Image, i: nat, now: Word)
    requires Valid(V) && Live(V, i)
    ensures var E := V.(inodes := V.inodes[i := V.inodes[i][ATIME := now]]);
            Valid(E) && Files(E) == Files(V)[i := Files(V)[i].(atime := now)]
  {
    WorkStart(V, i);
    var ino, lay := V.inodes[i][ATIME := now], LayoutOf(V, i);
    assert lay.ptrs == Ptrs(ino, IndirectOf(V, ino), |lay.ptrs|);
    FrameEnd(V, V, i, ino, lay);
    assert Files(V)[i].bytes == Text(V, lay.ptrs, ino[SIZE]);
  }

  lemma {:induction false} Slot(i: nat, j: nat)
    requires j < INODES_PER_BLOCK
    ensures var n := i * INODES_PER_BLOCK + j;
            InodeBlock(n) == i + InodeBlock(0) && n % 3 == j
  {
  }

  /** A fresh record over the old one: type, times and an empty block list. */
  function NewInode(ino: Inode, kind: Word, now: Word): (r: Inode)
    ensures TypeOf(r) == kind % 0x1_0000 && r[SIZE] == 0 && r[INDIRECT] == 0
    ensures r[ATIME] == ino[ATIME] && r[MTIME] == now && r[CTIME] == now
  {
    ([ino[0] - ino[0] % 0x1_0000 + kind % 0x1_0000, 0, ino[ATIME], now, now] + seq(33, k => 0))
  }

  /** The files after inode i has been taken: an empty one more, unless its type is 0 in
      16 bits. The access time is what the record last held. */
  ghost function Created(V: Image, i: nat, kind: Word, now: Word): map<nat, File>
    requires FilesOk(V) && i < INODE_NUM
  {
    if kind % 0x1_0000 == 0 then Files(V)
    else Files(V)[i := File(kind % 0x1_0000, V.inodes[i][ATIME], now, now, [])]
  }

  lemma {:induction false} NewFile(V: Image, i: nat, kind: Word, now: Word)
    requires Valid(V) && 0 < i < INODE_NUM && !Live(V, i)
    ensures var E := V.(inodes := V.inodes[i := NewInode(V.inodes[i], kind, now)]);
            Valid(E) && Files(E) == Created(V, i, kind, now)
  {
    FrameFresh(V, i);
    var ino := NewInode(V.inodes[i], kind, now);
    if TypeOf(ino) != 0 {
      var lay := Layout([], 0);
      assert Ptrs(ino, IndirectOf(V, ino), 0) == lay.ptrs;
      assert lay.Blocks() == {};
      FrameEnd(V, V, i, ino, lay);
    } else {
      FrameDead(V, V, i, ino);
    }
  }

  lemma {:induction false} BlankDisk(V: Image, D: Disk)
    requires Depicts(V, D) && forall b | 0 <= b < BLOCK_NUM :: Blank(D[b])
    ensures Valid(V) && Files(V) == map[] && forall i | 0 <= i < INODE_NUM :: V.inodes[i][ATIME] == 0
  {
    forall i: nat | i < INODE_NUM ensures TypeOf(V.inodes[i]) == 0 && V.inodes[i][ATIME] == 0 {
      BlankInode(D[InodeBlock(i)], i % 3);
      assert Agree(V, D, i);
    }
    forall b: nat | InRegion(b) ensures b !in V.used {
      BlankBit(D[BitmapBlock(b)], BitIndex(b));
      assert Agree(V, D, b);
    }
    NoFiles(V);
  }

  ghost predicate Blank(blk: Block)
  {
    forall k | 0 <= k < BLOCK_SIZE :: blk[k] == 0
  }

  lemma {:induction false} NoFiles(V: Image)
    requires V.Shaped() && V.used == {} && forall i | 0 <= i < INODE_NUM :: TypeOf(V.inodes[i]) == 0
    ensures Valid(V) && Files(V) == map[]
  {
  }

  lemma {:induction false} BlankInode(blk: Block, slot: nat)
    requires slot < INODES_PER_BLOCK && Blank(blk)
    ensures TypeOf(InodeIn(blk, slot)) == 0 && InodeIn(blk, slot)[ATIME] == 0
  {
    BlankWord(blk, slot * 38);
    BlankWord(blk, slot * 38 + ATIME);
    var ino := InodeIn(blk, slot);
    assert ino[0] == BlockWord(blk, slot * 38) && ino[ATIME] == BlockWord(blk, slot * 38 + ATIME);
  }

  lemma {:induction false} BlankWord(blk: Block, k: nat)
    requires k < 128 && Blank(blk)
    ensures BlockWord(blk, k) == 0
  {
  }

  lemma {:induction false} BlankBit(blk: Block, t: nat)
    requires t < BITS_PER_BLOCK && Blank(blk)
    ensures !BlockBit(blk, t)
  {
    ZeroHasNoBit(0, t % 8);
  }

  lemma {:induction false} ZeroHasNoBit(x: nat, k: nat)
    requires x == 0
    ensures !Bit(x, k)
  {
    if k > 0 { ZeroHasNoBit(x, k - 1); }
  }
}
