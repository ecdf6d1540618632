/**
  The client side of at-most-once RPC: `xid_rep_window_` and the in-place update
  `update_xid_rep`. The front of the window is sent with every request as the
  acknowledgement of all xids up to it. Xids are unbounded here.
 */
module RpcClientWindow {
  predicate Sorted(w: seq<nat>)
  {
    forall i, j | 0 <= i <= j < |w| :: w[i] <= w[j]
  }

  /** Insert before the first larger element. */
  function Insert(w: seq<nat>, xid: nat): (r: seq<nat>)
    ensures r != []
  {
    if w == [] || w[0] > xid then [xid] + w else [w[0]] + Insert(w[1..], xid)
  }

  /** Index of the first element larger than x. */
  function FirstAbove(w: seq<nat>, x: nat): (k: nat)
    ensures k <= |w|
    ensures forall j | 0 <= j < k :: w[j] <= x
    ensures k < |w| ==> w[k] > x
  {
    if w == [] || w[0] > x then 0 else 1 + FirstAbove(w[1..], x)
  }

  /** Move the front over every consecutive successor. */
  function Compress(w: seq<nat>): (r: seq<nat>)
    requires w != []
    ensures r != []
    decreases |w|
  {
    var k := FirstAbove(w, w[0]);
    if k < |w| && w[k] == w[0] + 1 then Compress(w[k..]) else w
  }

  function Report(w: seq<nat>, xid: nat): (r: seq<nat>)
    requires w != []
    ensures r != []
  {
    if xid <= w[0] then w else Compress(Insert(w, xid))
  }

  class XidWindow {
    var window: seq<nat>

    constructor ()
      ensures window == [0]
    {
      window := [0];
    }

    /** `update_xid_rep`: insert into the list, then compress it. */
    method UpdateXidRep(xid: nat)
      requires window != [] && Sorted(window)
      modifies this
      ensures window == Report(old(window), xid)
      ensures window != [] && Sorted(window)
    {
      if xid <= window[0] { return; }
      var at := 0;
      while at < |window| && window[at] <= xid
        invariant 0 <= at <= |window|
        invariant forall j | 0 <= j < at :: window[j] <= xid
      {
        at := at + 1;
      }
      InsertAt(window, xid, at);
      window := window[..at] + [xid] + window[at..];
      CompressFront();
    }

    /** The compress loop pops the front while the iterator `k` walks over the
        list. It never pops the element under the iterator: `k` is positive
        before each pop. */
    method CompressFront()
      requires window != [] && Sorted(window)
      modifies this
      ensures window == Compress(old(window))
      ensures window != [] && Sorted(window)
    {
      var k := 1;
      while k < |window|
        invariant 0 < k <= |window| && Sorted(window)
        invariant forall j | 0 < j < k :: window[j] != window[0] + 1
        invariant Compress(window) == Compress(old(window))
      {
        ghost var rest := |window| - k;
        while window[0] + 1 == window[k]
          invariant 0 <= k < |window| && |window| - k == rest && Sorted(window)
          invariant forall j | 0 < j < k :: window[j] != window[0] + 1
          invariant Compress(window) == Compress(old(window))
          decreases k
        {
          assert k >= 1;
          CompressPop(window, k);
          window := window[1..];
          k := k - 1;
        }
        k := k + 1;
      }
      CompressDone(window);
    }
  }

  lemma {:induction false} InsertAt(w: seq<nat>, xid: nat, k: nat)
    requires k <= |w| && (forall j | 0 <= j < k :: w[j] <= xid) && (k < |w| ==> w[k] > xid)
    ensures Insert(w, xid) == w[..k] + [xid] + w[k..]
    ensures Sorted(w) ==> Sorted(Insert(w, xid))
    decreases k
  {
    if k > 0 {
      InsertAt(w[1..], xid, k - 1);
    }
  }

  lemma {:induction false} CompressPop(w: seq<nat>, k: nat)
    requires Sorted(w) && 0 < k < |w| && w[k] == w[0] + 1
    ensures Compress(w[1..]) == Compress(w)
  {
    var f := FirstAbove(w, w[0]);
    assert w[f] == w[0] + 1;
    if f > 1 {
      assert w[1] == w[0];
      FirstAboveTail(w, w[0]);
      assert w[1..][f - 1..] == w[f..];
    }
  }

  lemma {:induction false} FirstAboveTail(w: seq<nat>, x: nat)
    requires w != [] && w[0] <= x
    ensures FirstAbove(w, x) == 1 + FirstAbove(w[1..], x)
  {
  }

  lemma {:induction false} CompressDone(w: seq<nat>)
    requires w != [] && forall j | 0 < j < |w| :: w[j] != w[0] + 1
    ensures Compress(w) == w
  {
  }

  /** The window stands for a set of reported xids, except that its front may
      still have a reported successor. */
  ghost predicate Covers(w: seq<nat>, reported: set<nat>)
  {
    && w != [] && Sorted(w)
    && (forall x | 1 <= x <= w[0] :: x in reported)
    && (forall x | x > w[0] :: x in w <==> x in reported)
  }

  /** The front is the largest n with 1..n all reported; beyond it the window
      holds exactly the reported xids. */
  ghost predicate Represents(w: seq<nat>, reported: set<nat>)
  {
    Covers(w, reported) && w[0] + 1 !in reported
  }

  lemma {:induction false} InsertElements(w: seq<nat>, xid: nat, x: nat)
    ensures x in Insert(w, xid) <==> x == xid || x in w
  {
    if w != [] && w[0] <= xid {
      InsertElements(w[1..], xid, x);
      assert w == [w[0]] + w[1..];
    }
  }

  lemma {:induction false} InsertCovers(w: seq<nat>, reported: set<nat>, xid: nat)
    requires Covers(w, reported) && xid > w[0]
    ensures Covers(Insert(w, xid), reported + {xid})
  {
    InsertAt(w, xid, FirstAbove(w, xid));
    var w' := Insert(w, xid);
    forall x | x > w'[0] ensures x in w' <==> x in reported + {xid} {
      InsertElements(w, xid, x);
    }
  }

  lemma {:induction false} CompressRepresents(w: seq<nat>, reported: set<nat>)
    requires Covers(w, reported)
    ensures Represents(Compress(w), reported)
    decreases |w|
  {
    var k := FirstAbove(w, w[0]);
    if k < |w| && w[k] == w[0] + 1 {
      forall x | x > w[k] ensures x in w[k..] <==> x in reported {
        assert w == w[..k] + w[k..];
        assert x in w <==> x in w[k..];
      }
      CompressRepresents(w[k..], reported);
    } else {
      assert w[0] + 1 !in w;
    }
  }

  /** For any order and repetition of reports the window stands for the set of
      xids reported so far. */
  lemma {:induction false} ReportRepresents(w: seq<nat>, reported: set<nat>, xid: nat)
    requires Represents(w, reported)
    ensures Represents(Report(w, xid), reported + {xid})
  {
    if xid > w[0] {
      InsertCovers(w, reported, xid);
      CompressRepresents(Insert(w, xid), reported + {xid});
    }
  }

  function ReportAll(xids: seq<nat>): (w: seq<nat>)
    ensures w != []
  {
    if xids == [] then [0] else Report(ReportAll(xids[..|xids| - 1]), xids[|xids| - 1])
  }

  function Elements(xids: seq<nat>): set<nat>
  {
    set x | x in xids
  }

  lemma {:induction false} ElementsLast(xids: seq<nat>)
    requires xids != []
    ensures Elements(xids) == Elements(xids[..|xids| - 1]) + {xids[|xids| - 1]}
  {
    assert xids == xids[..|xids| - 1] + [xids[|xids| - 1]];
  }

  lemma {:induction false} WindowIsTheReportedSet(xids: seq<nat>)
    ensures Represents(ReportAll(xids), Elements(xids))
  {
    if xids == [] {
      assert Elements(xids) == {};
    } else {
      WindowIsTheReportedSet(xids[..|xids| - 1]);
      ReportRepresents(ReportAll(xids[..|xids| - 1]), Elements(xids[..|xids| - 1]), xids[|xids| - 1]);
      ElementsLast(xids);
    }
  }

  // ----- copies -----

  lemma {:induction false} InsertCounts(w: seq<nat>, xid: nat)
    ensures multiset(Insert(w, xid)) == multiset(w) + multiset{xid}
  {
    if w != [] && w[0] <= xid {
      InsertCounts(w[1..], xid);
      assert w == [w[0]] + w[1..];
    }
  }

  /** Compressing drops only what is below the new front. */
  lemma {:induction false} CompressCounts(w: seq<nat>, x: nat)
    requires w != [] && Sorted(w) && x >= Compress(w)[0]
    ensures Compress(w)[0] >= w[0]
    ensures multiset(Compress(w))[x] == multiset(w)[x]
    decreases |w|
  {
    var k := FirstAbove(w, w[0]);
    if k < |w| && w[k] == w[0] + 1 {
      CompressCounts(w[k..], x);
      assert w == w[..k] + w[k..];
      assert forall y | y in w[..k] :: y <= w[0];
      assert multiset(w[..k])[x] == 0;
    }
  }

  /** A report moves the front forward or not at all, and above the old front it adds
      one copy of the reported xid. */
  lemma {:induction false} ReportCounts(w: seq<nat>, xid: nat, x: nat)
    requires w != [] && Sorted(w) && x >= Report(w, xid)[0] >= w[0]
    ensures multiset(Report(w, xid))[x] == multiset(w)[x] + if x == xid > w[0] then 1 else 0
  {
    if xid > w[0] {
      InsertAt(w, xid, FirstAbove(w, xid));
      CompressCounts(Insert(w, xid), x);
      InsertCounts(w, xid);
    }
  }

  lemma {:induction false} FrontForward(w: seq<nat>, xid: nat)
    requires w != [] && Sorted(w)
    ensures Report(w, xid)[0] >= w[0] && Sorted(Report(w, xid))
  {
    if xid > w[0] {
      InsertAt(w, xid, FirstAbove(w, xid));
      var v := Insert(w, xid);
      assert v[0] == w[0];
      CompressSorted(v);
    }
  }

  lemma {:induction false} CompressSorted(w: seq<nat>)
    requires w != [] && Sorted(w)
    ensures Sorted(Compress(w)) && Compress(w)[0] >= w[0]
    decreases |w|
  {
    var k := FirstAbove(w, w[0]);
    if k < |w| && w[k] == w[0] + 1 { CompressSorted(w[k..]); }
  }

  /** The number of reports after which the front was what it is now. */
  function Settled(xids: seq<nat>): (n: nat)
    ensures n <= |xids|
  {
    if xids == [] then 0
    else
      var before := xids[..|xids| - 1];
      if ReportAll(xids)[0] == ReportAll(before)[0] then Settled(before) else |xids|
  }

  lemma {:induction false} WindowSorted(xids: seq<nat>)
    ensures Sorted(ReportAll(xids))
  {
    WindowIsTheReportedSet(xids);
  }

  lemma {:induction false} CountLast(xids: seq<nat>, x: nat)
    requires xids != []
    ensures multiset(xids)[x] == multiset(xids[..|xids| - 1])[x] + if x == xids[|xids| - 1] then 1 else 0
  {
    assert xids == xids[..|xids| - 1] + [xids[|xids| - 1]];
  }

  /** Above its front the window keeps every report, repetitions included. */
  lemma {:induction false} CopiesAboveFront(xids: seq<nat>, x: nat)
    requires x > ReportAll(xids)[0]
    ensures multiset(ReportAll(xids))[x] == multiset(xids)[x]
  {
    if xids != [] {
      var before, last := xids[..|xids| - 1], xids[|xids| - 1];
      WindowSorted(before);
      FrontForward(ReportAll(before), last);
      CopiesAboveFront(before, x);
      ReportCounts(ReportAll(before), last, x);
      CountLast(xids, x);
    }
  }

  ghost function Last(xids: seq<nat>): nat
    requires xids != []
  {
    xids[|xids| - 1]
  }

  lemma {:induction false} SameFront(xids: seq<nat>)
    requires xids != [] && ReportAll(xids)[0] == ReportAll(xids[..|xids| - 1])[0]
    ensures var f := ReportAll(xids)[0];
            multiset(ReportAll(xids))[f] == multiset(ReportAll(xids[..|xids| - 1]))[f]
  {
    var before := xids[..|xids| - 1];
    WindowSorted(before);
    ReportCounts(ReportAll(before), Last(xids), ReportAll(xids)[0]);
  }

  lemma {:induction false} NewFront(xids: seq<nat>)
    requires xids != [] && ReportAll(xids)[0] != ReportAll(xids[..|xids| - 1])[0]
    ensures var f := ReportAll(xids)[0];
            f > 0 && multiset(ReportAll(xids))[f] == multiset(xids)[f]
  {
    var before := xids[..|xids| - 1];
    var w, f := ReportAll(before), ReportAll(xids)[0];
    WindowSorted(before);
    FrontForward(w, Last(xids));
    ReportCounts(w, Last(xids), f);
    CopiesAboveFront(before, f);
    CountLast(xids, f);
  }

  /** The front has as many copies as it had been reported when it became the front. */
  lemma {:induction false} CopiesOfFront(xids: seq<nat>)
    ensures var f := ReportAll(xids)[0];
            multiset(ReportAll(xids))[f] == if f == 0 then 1 else multiset(xids[..Settled(xids)])[f]
  {
    hide Report, Compress, Insert;
    if xids != [] {
      var before := xids[..|xids| - 1];
      if ReportAll(xids)[0] == ReportAll(before)[0] {
        SameFront(xids);
        CopiesOfFront(before);
        assert xids[..Settled(xids)] == before[..Settled(before)];
      } else {
        NewFront(xids);
        assert xids[..Settled(xids)] == xids;
      }
    }
  }

  /** Reported more than once while the window still kept it. */
  ghost predicate RepeatKept(xids: seq<nat>, x: nat)
  {
    var f := ReportAll(xids)[0];
    || (x > f && multiset(xids)[x] > 1)
    || (x == f > 0 && multiset(xids[..Settled(xids)])[f] > 1)
  }

  /** The window repeats an xid if and only if that xid was reported more than once
      before the front passed it. */
  lemma {:induction false} CopiesIffRepeated(xids: seq<nat>, x: nat)
    ensures multiset(ReportAll(xids))[x] > 1 <==> RepeatKept(xids, x)
  {
    var w := ReportAll(xids);
    CopiesOfFront(xids);
    if x > w[0] {
      CopiesAboveFront(xids, x);
    } else if x < w[0] {
      WindowSorted(xids);
      assert x !in w;
    }
  }

  lemma {:induction false} ReportBeyondGap(w: seq<nat>, xid: nat)
    requires w != [] && w[0] + 1 < xid && forall j | 0 < j < |w| :: w[0] + 1 < w[j] <= xid
    ensures Report(w, xid) == w + [xid]
  {
    hide Insert, Compress, FirstAbove;
    InsertAt(w, xid, |w|);
    assert w[..|w|] + [xid] + w[|w|..] == w + [xid];
    CompressDone(w + [xid]);
  }

  lemma {:induction false} CompressRun(n: nat)
    ensures Compress([n, n + 1, n + 2, n + 2]) == [n + 2, n + 2]
  {
    var v, v1, v2 := [n, n + 1, n + 2, n + 2], [n + 1, n + 2, n + 2], [n + 2, n + 2];
    assert v[1..] == v1 && v1[1..] == v2;
    CompressPop(v, 1);
    CompressPop(v1, 1);
    CompressDone(v2);
  }

  lemma {:induction false} ReportIntoGap(n: nat)
    ensures Report([n, n + 2, n + 2], n + 1) == [n + 2, n + 2]
  {
    var w := [n, n + 2, n + 2];
    InsertAt(w, n + 1, 1);
    assert w[..1] + [n + 1] + w[1..] == [n, n + 1, n + 2, n + 2];
    CompressRun(n);
  }

  /** Such a run: n + 2 is reported twice, and both copies outlive the move of the
      front to n + 2. */
  lemma {:induction false} RepeatedReportsStay(n: nat)
    ensures Report(Report(Report([n], n + 2), n + 2), n + 1) == [n + 2, n + 2]
  {
    ReportBeyondGap([n], n + 2);
    ReportBeyondGap([n, n + 2], n + 2);
    assert [n] + [n + 2] == [n, n + 2] && [n, n + 2] + [n + 2] == [n, n + 2, n + 2];
    ReportIntoGap(n);
  }
}
