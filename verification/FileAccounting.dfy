/**
  Space accounting: the number of free blocks is determined by the sizes of the
  files alone, so no run of operations leaks a block or counts one twice.
 */
module FileAccounting {
  import opened DiskLayout
  import opened DiskImage
  import opened FileView
  import opened FileSteps

  /** Blocks a file of this size occupies, its indirect block included. */
  function Cost(size: nat): nat
  {
    BlockCount(size) + if BlockCount(size) > NDIRECT then 1 else 0
  }

  /** Blocks occupied by the files below inode n. */
  function TotalCost(files: map<nat, File>, n: nat): nat
  {
    if n == 0 then 0
    else TotalCost(files, n - 1) + if n - 1 in files then Cost(|files[n - 1].bytes|) else 0
  }

  ghost function OwnedBelow(V: Image, n: nat): set<nat>
    requires FilesOk(V)
  {
    if n == 0 then {}
    else OwnedBelow(V, n - 1) + if Live(V, n - 1) then LayoutOf(V, n - 1).Blocks() else {}
  }

  lemma {:induction false} OwnedBelowIs(V: Image, n: nat, b: nat)
    requires FilesOk(V)
    ensures b in OwnedBelow(V, n) <==> exists i: nat :: i < n && Owns(V, i, b)
  {
    if n > 0 {
      OwnedBelowIs(V, n - 1, b);
      if b in OwnedBelow(V, n) && b !in OwnedBelow(V, n - 1) {
        assert Owns(V, n - 1, b);
      }
    }
  }

  lemma {:induction false} DistinctCount(s: seq<nat>)
    requires forall k, l | 0 <= k < l < |s| :: s[k] != s[l]
    ensures |Members(s)| == |s|
  {
    if s == [] {
      assert Members(s) == {};
    } else {
      var t, x := s[..|s| - 1], s[|s| - 1];
      DistinctCount(t);
      assert x !in t && s == t + [x];
      assert Members(s) == Members(t) + {x};
    }
  }

  lemma {:induction false} LayoutCost(V: Image, i: nat)
    requires FilesOk(V) && Live(V, i)
    ensures |LayoutOf(V, i).Blocks()| == Cost(|Files(V)[i].bytes|)
  {
    assert FileOk(V, i);
    var lay := LayoutOf(V, i);
    DistinctCount(lay.ptrs);
    assert lay.Blocks() == Members(lay.ptrs) + if lay.ind != 0 then {lay.ind} else {};
    assert |Files(V)[i].bytes| == V.inodes[i][SIZE];
  }

  lemma {:induction false} OwnedCount(V: Image, n: nat)
    requires Valid(V) && n <= INODE_NUM
    ensures |OwnedBelow(V, n)| == TotalCost(Files(V), n)
  {
    if n > 0 {
      OwnedCount(V, n - 1);
      if Live(V, n - 1) {
        LayoutCost(V, n - 1);
        var before, its := OwnedBelow(V, n - 1), LayoutOf(V, n - 1).Blocks();
        forall b | b in its ensures b !in before {
          OwnedBelowIs(V, n - 1, b);
          assert Owns(V, n - 1, b) && !OtherOwns(V, n - 1, b);
        }
        assert before !! its;
      }
    }
  }

  ghost function Range(lo: nat, hi: nat): (r: set<nat>)
    requires lo <= hi
    ensures forall b: nat :: b in r <==> lo <= b < hi
    ensures |r| == hi - lo
    decreases hi - lo
  {
    if lo == hi then {} else Range(lo, hi - 1) + {hi - 1}
  }

  lemma {:induction false} FreeOrUsed(V: Image)
    requires V.Shaped()
    ensures FreeCount(V) + |V.used| == 4099 - DATA_START
  {
    var lo, hi := DATA_START, 4099;
    assert Range(lo, hi) == FreeBlocks(V) + V.used && FreeBlocks(V) !! V.used;
  }

  /** Free blocks and occupied blocks add up to the whole region. */
  lemma {:induction false} SpaceConserved(V: Image)
    requires Valid(V)
    ensures FreeCount(V) + TotalCost(Files(V), |V.inodes|) == 4099 - DATA_START
  {
    var n := |V.inodes|;
    forall b: nat ensures b in V.used <==> b in OwnedBelow(V, n) {
      OwnedBelowIs(V, n, b);
    }
    assert V.used == OwnedBelow(V, n);
    OwnedCount(V, n);
    FreeOrUsed(V);
  }
}
